/**
 * The transaction state of a vending machine and its transitions, as pure
 * functions. Both machine classes (module Machines) are specified by these.
 */
module Transitions {
  import opened Options
  import opened Money
  import Catalog

  /**
   * The fields of a machine: `menu_items`, `selected_item`, `selected_price`,
   * `current_amount` and the numeric value of the label `current_state`
   * ("q0" is 0, "q2.5" is 5 half units). Money is in half units.
   */
  datatype State = State(menu: seq<string>, item: Option<string>, price: nat, amount: int, tag: int)

  /** What `int(item_number)` makes of the typed item number. */
  datatype ItemNumber = Integer(n: int) | NotAnInteger

  /** The machine as constructed: no menu shown yet, nothing selected. */
  function Initial(): State {
    State([], None, 0, 0, 0)
  }

  /** No item selected, nothing paid, label "q0". */
  predicate Idle(s: State) {
    s.item == None && s.price == 0 && s.amount == 0 && s.tag == 0
  }

  /**
   * The invariant both machines keep: the menu is either not built yet or the
   * catalog's names in order; the label always shows the amount; with no item
   * selected nothing has been paid; a selected item is priced by the catalog.
   */
  predicate Inv(s: State) {
    && (s.menu == [] || s.menu == Catalog.Keys())
    && s.tag == s.amount
    && (s.item == None ==> s.amount == 0 && s.price == 0)
    && (s.item.Some? ==> s.item.value in Catalog.Items() && s.price == Catalog.Items()[s.item.value])
  }

  /** A transaction in progress: an item is selected and not yet paid for. */
  predicate Pending(s: State) {
    Inv(s) && s.item.Some? && 0 <= s.amount < s.price
  }

  /** `reset_machine`: back to idle from any state; the menu is kept. */
  function Reset(s: State): (r: State)
    ensures Idle(r) && r.menu == s.menu
    ensures Inv(s) ==> Inv(r)
  {
    s.(item := None, price := 0, amount := 0, tag := 0)
  }

  /** `display_menu` (its effect on state): the menu becomes the catalog's names in order. */
  function DisplayMenu(s: State): (r: State)
    ensures r.menu == Catalog.Keys() && |r.menu| == |Catalog.Listing|
    ensures r.item == s.item && r.price == s.price && r.amount == s.amount && r.tag == s.tag
    ensures Inv(s) ==> Inv(r)
  {
    s.(menu := Catalog.Keys())
  }

  /** The outcome of `select_item`: its return value and the new state. */
  datatype Selection = Selection(ok: bool, next: State)

  /**
   * `select_item(item_number)`: a 1-based number within the menu selects that
   * menu entry at its catalog price; anything else (out of range, not an
   * integer, or any number while the menu is still empty) fails and changes
   * nothing. The amount paid and the label are left as they were.
   */
  function Select(s: State, k: ItemNumber): (r: Selection)
    requires Inv(s)
    ensures r.ok <==> k.Integer? && 1 <= k.n <= |s.menu|
    ensures s.menu == [] ==> !r.ok
    ensures !r.ok ==> r.next == s
    ensures r.ok ==> && r.next.item == Some(s.menu[k.n - 1])
                     && r.next.menu == s.menu && r.next.amount == s.amount && r.next.tag == s.tag
    ensures r.ok ==> r.next.item == Some(Catalog.Listing[k.n - 1].name)
                     && r.next.price == Catalog.Listing[k.n - 1].price
    ensures Inv(r.next)
    ensures Idle(s) && r.ok ==> Pending(r.next)
  {
    if k.NotAnInteger? then Selection(false, s)
    else
      var index := k.n - 1;
      if 0 <= index < |s.menu| then
        var name := s.menu[index];
        Catalog.KeyPrice(index);
        Catalog.PriceRange(name);
        Selection(true, s.(item := Some(name), price := Catalog.Items()[name]))
      else
        Selection(false, s)
  }

  /**
   * The outcome of `insert_money`: its return value, the change computed if
   * the item was dispensed (`None` when it was not), and the new state.
   */
  datatype Step = Step(result: bool, change: Option<int>, next: State)

  /**
   * The common part of both `insert_money` versions, once a selected machine
   * takes `value`: the amount and the label both rise by it; if the amount
   * then reaches the price, `dispense_item` computes the change and resets.
   */
  function Accept(s: State, value: int): (r: Step)
    requires s.item.Some?
    ensures r.result && r.next.menu == s.menu
    ensures r.change.Some? <==> s.amount + value >= s.price
    ensures r.change.Some? ==> Idle(r.next) && r.change.value == s.amount + value - s.price >= 0
    ensures r.change.None? ==> r.next == s.(amount := s.amount + value, tag := s.tag + value)
    ensures Inv(s) ==> Inv(r.next)
  {
    var paid := s.(amount := s.amount + value, tag := s.tag + value);
    if paid.amount >= paid.price then Step(true, Some(paid.amount - paid.price), Reset(paid))
    else Step(true, None, paid)
  }

  /**
   * `VendingMachineNFA.insert_money(value)`. With no item selected, or a value
   * other than 0.5 and 1, it returns False and changes nothing. Otherwise it
   * returns True, and the amount rises by exactly the coin: if that reaches
   * the price the item is dispensed with change `amount - price` and the
   * machine is idle; if not, the item stays selected and is still owed for.
   */
  function NfaInsert(s: State, v: Value): (r: Step)
    ensures r.result <==> s.item.Some? && IsCoin(v)
    ensures !r.result ==> r.next == s && r.change == None
    ensures r.result ==> (r.change.Some? <==> s.amount + v.halves >= s.price)
    ensures r.change.Some? ==> && Idle(r.next) && r.next.menu == s.menu
                               && r.change.value == s.amount + v.halves - s.price >= 0
    ensures r.result && r.change.None? ==>
              && r.next.item == s.item && r.next.price == s.price && r.next.menu == s.menu
              && r.next.amount == s.amount + v.halves < r.next.price
    ensures Inv(s) ==> Inv(r.next)
    ensures Pending(s) && r.change.None? ==> Pending(r.next)
    ensures Pending(s) && r.change.Some? ==> r.change.value <= 1
  {
    if s.item.None? then Step(false, None, s)
    else if !IsCoin(v) then Step(false, None, s)
    else Accept(s, v.halves)
  }

  /**
   * `VendingMachineDFA.insert_money(value)`. It does not check the value. With
   * no item selected it returns False and changes nothing. Otherwise the
   * amount rises by the value, and it returns True exactly when the amount
   * reached the price, the item was dispensed with change `amount - price`
   * and the machine is idle; it returns False while the item is still owed for.
   */
  function DfaInsert(s: State, value: int): (r: Step)
    ensures r.result <==> r.change.Some?
    ensures r.result <==> s.item.Some? && s.amount + value >= s.price
    ensures s.item.None? ==> r.next == s
    ensures r.result ==> && Idle(r.next) && r.next.menu == s.menu
                         && r.change.value == s.amount + value - s.price >= 0
    ensures s.item.Some? && !r.result ==>
              && r.next.item == s.item && r.next.price == s.price && r.next.menu == s.menu
              && r.next.amount == s.amount + value < r.next.price
    ensures Inv(s) ==> Inv(r.next)
    ensures Pending(s) && IsCoinHalves(value) && !r.result ==> Pending(r.next)
    ensures Pending(s) && IsCoinHalves(value) && r.result ==> r.change.value <= 1
  {
    if s.item.None? then Step(false, None, s)
    else
      var r := Accept(s, value);
      if r.change.Some? then r else r.(result := false)
  }

  /**
   * On a valid coin the two versions of `insert_money` make the same
   * transition and compute the same change; their return values differ
   * exactly when the item was not dispensed (NFA True, DFA False).
   */
  lemma InsertVersionsAgreeOnCoins(s: State, v: Value)
    requires s.item.Some? && IsCoin(v)
    ensures NfaInsert(s, v).next == DfaInsert(s, v.halves).next
    ensures NfaInsert(s, v).change == DfaInsert(s, v.halves).change
    ensures NfaInsert(s, v).result && (DfaInsert(s, v.halves).result <==> NfaInsert(s, v).change.Some?)
  {
  }

  /** `reset_machine` is idempotent. */
  lemma ResetIdempotent(s: State)
    ensures Reset(Reset(s)) == Reset(s)
  {
  }
}
