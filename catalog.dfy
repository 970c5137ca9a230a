/**
 * The price list of the vending machine (`ListItems.items`): an insertion-ordered
 * dictionary from item names to prices. Prices are counted in half-ringgit
 * units, so RM2.00 is 4 and RM3.50 is 7; every catalog price is a whole
 * number of such units.
 */
module Catalog {

  /** One line of the price list. */
  datatype Entry = Entry(name: string, price: nat)

  /** The price list in its declared order. */
  const Listing: seq<Entry> := [
    Entry("Water", 4),
    Entry("Soda", 7),
    Entry("Chips", 9),
    Entry("Chocolate", 12),
    Entry("Coffee", 15),
    Entry("Juice", 17),
    Entry("Sandwich", 18),
    Entry("Energy Drink", 20)
  ]

  /** The names of a listing, in order. */
  function Names(entries: seq<Entry>): seq<string>
  {
    seq(|entries|, i requires 0 <= i < |entries| => entries[i].name)
  }

  predicate Distinct(s: seq<string>) {
    forall i, j :: 0 <= i < j < |s| ==> s[i] != s[j]
  }

  /**
   * The dictionary a literal with these entries builds: entries are inserted
   * left to right, so a later entry for the same name would overwrite an earlier one.
   */
  function ToMap(entries: seq<Entry>): map<string, nat>
  {
    if entries == [] then map[]
    else ToMap(entries[..|entries| - 1])[entries[|entries| - 1].name := entries[|entries| - 1].price]
  }

  /**
   * `ListItems.items`: each listed name maps to its listed price, and every
   * key is a listed name.
   */
  function Items(): (r: map<string, nat>)
    ensures forall i :: 0 <= i < |Listing| ==> Listing[i].name in r && r[Listing[i].name] == Listing[i].price
    ensures forall name :: name in r ==> exists i :: 0 <= i < |Listing| && Listing[i].name == name
  {
    ListingNamesDistinct();
    ToMapAll(Listing);
    ToMap(Listing)
  }

  /**
   * `list(self.items.keys())`: the names in listing order, without repeats;
   * a name is in the list exactly when it is a key of the dictionary.
   */
  function Keys(): (r: seq<string>)
    ensures |r| == |Listing| && Distinct(r)
    ensures forall i :: 0 <= i < |Listing| ==> r[i] == Listing[i].name
    ensures forall name :: name in Items() <==> name in r
  {
    ListingNamesDistinct();
    Names(Listing)
  }

  /** With distinct names, the dictionary maps the i-th name to the i-th price. */
  lemma {:induction false} ToMapAt(entries: seq<Entry>, i: nat)
    requires Distinct(Names(entries))
    requires i < |entries|
    ensures entries[i].name in ToMap(entries)
    ensures ToMap(entries)[entries[i].name] == entries[i].price
  {
    var n := |entries| - 1;
    if i < n {
      var prefix := entries[..n];
      assert Names(prefix) == Names(entries)[..n];
      ToMapAt(prefix, i);
      assert Names(entries)[i] != Names(entries)[n];
    }
  }

  /** Every key of the dictionary comes from some entry, whose price it carries. */
  lemma {:induction false} ToMapSource(entries: seq<Entry>, name: string) returns (i: nat)
    requires name in ToMap(entries)
    ensures i < |entries| && entries[i].name == name
    ensures ToMap(entries)[name] == entries[i].price
  {
    var n := |entries| - 1;
    if entries[n].name == name {
      i := n;
    } else {
      i := ToMapSource(entries[..n], name);
    }
  }

  /** What the dictionary holds, for every entry and every key at once. */
  lemma ToMapAll(entries: seq<Entry>)
    requires Distinct(Names(entries))
    ensures forall i :: 0 <= i < |entries| ==>
              entries[i].name in ToMap(entries) && ToMap(entries)[entries[i].name] == entries[i].price
    ensures forall name :: name in ToMap(entries) ==> exists i :: 0 <= i < |entries| && entries[i].name == name
  {
    forall i | 0 <= i < |entries|
      ensures entries[i].name in ToMap(entries) && ToMap(entries)[entries[i].name] == entries[i].price
    {
      ToMapAt(entries, i);
    }
    forall name | name in ToMap(entries)
      ensures exists i :: 0 <= i < |entries| && entries[i].name == name
    {
      var i := ToMapSource(entries, name);
    }
  }

  lemma ListingNamesDistinct()
    ensures Distinct(Names(Listing))
  {
  }

  /**
   * The menu numbering and the price lookup agree: the item shown at position
   * i + 1 of the menu is priced at the i-th price of the listing.
   */
  lemma KeyPrice(i: nat)
    requires i < |Keys()|
    ensures Keys()[i] == Listing[i].name
    ensures Keys()[i] in Items() && Items()[Keys()[i]] == Listing[i].price
  {
  }

  /** Every catalog price lies between RM2.00 and RM10.00; in particular none is free. */
  lemma PriceRange(name: string)
    requires name in Items()
    ensures 4 <= Items()[name] <= 20
  {
  }
}
