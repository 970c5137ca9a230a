/**
 * What the two coin loops guarantee, stated over their specifications in
 * module Session.
 */
module SessionProperties {
  import opened Options
  import opened Money
  import opened Transitions
  import opened Session

  /** The total of a list of amounts. */
  function Sum(xs: seq<int>): int {
    if xs == [] then 0 else xs[0] + Sum(xs[1..])
  }

  // ---------------------------------------------------------------- strict loop

  /**
   * The strict loop never passes `insert_money` anything but RM0.5 or RM1, and
   * what it passes are exactly the first inputs it read, in order.
   */
  lemma {:induction false} StrictInsertsOnlyCoins(s: State, input: seq<CoinEntry>)
    requires s.item.Some?
    ensures var r := Strict(s, input);
      && |r.inserted| <= r.used <= |input|
      && forall i :: 0 <= i < |r.inserted| ==>
           IsCoinHalves(r.inserted[i]) && input[i] == Number(OnGrid(r.inserted[i]))
    decreases |input|
  {
    if input != [] && AcceptedEntry(input[0]) {
      var t := DfaInsert(s, input[0].value.halves);
      if t.next.item.Some? {
        StrictInsertsOnlyCoins(t.next, input[1..]);
      }
    }
  }

  /**
   * The strict loop is aborted exactly by the first entry that is not a valid
   * coin: then it has read one input more than it inserted, that input is
   * invalid or unparseable, and the machine is back to idle. A run that was
   * not aborted read only the coins it inserted, so inputs made only of
   * valid coins never abort it.
   */
  lemma {:induction false} StrictAbortsOnFirstBadEntry(s: State, input: seq<CoinEntry>)
    requires s.item.Some?
    ensures var r := Strict(s, input);
      && (r.ending == Aborted ==>
            && r.used == |r.inserted| + 1 && r.used <= |input| && !AcceptedEntry(input[r.used - 1])
            && Idle(r.next) && r.next.menu == s.menu)
      && (r.ending != Aborted ==> r.used == |r.inserted|)
      && (r.ending == InputEnded ==> r.used == |input|)
      && ((forall i :: 0 <= i < |input| ==> AcceptedEntry(input[i])) ==> r.ending != Aborted)
    decreases |input|
  {
    if input != [] && AcceptedEntry(input[0]) {
      var t := DfaInsert(s, input[0].value.halves);
      if t.next.item.Some? {
        StrictAbortsOnFirstBadEntry(t.next, input[1..]);
        var r := Strict(t.next, input[1..]);
        if r.ending == Aborted {
          assert input[1..][r.used - 1] == input[r.used];
        }
        if forall i :: 0 <= i < |input| ==> AcceptedEntry(input[i]) {
          assert forall i :: 0 <= i < |input[1..]| ==> AcceptedEntry(input[1..][i]) by {
            forall i | 0 <= i < |input[1..]| ensures AcceptedEntry(input[1..][i]) {
              assert input[1..][i] == input[i + 1];
            }
          }
        }
      }
    }
  }

  lemma SumPrepend(x: int, xs: seq<int>)
    ensures Sum([x] + xs) == x + Sum(xs)
  {
  }

  /**
   * Started on a transaction in progress, the strict loop reads coins only
   * while the item is still owed for: before each coin it inserted, the
   * amount was below the price. It dispenses exactly when the coins first
   * reach the price, with at most RM0.5 over, and the machine is then idle.
   * An abort happens while the item is still owed for. If the inputs run out
   * first, the item is still selected and the amount is the old one plus the
   * coins inserted.
   */
  lemma {:induction false} StrictPayment(s: State, input: seq<CoinEntry>)
    requires Pending(s)
    ensures var r := Strict(s, input);
      && (forall j :: 0 <= j < |r.inserted| ==> s.amount + Sum(r.inserted[..j]) < s.price)
      && (r.ending == Dispensed ==>
            && Idle(r.next) && r.next.menu == s.menu && |r.inserted| > 0
            && s.price <= s.amount + Sum(r.inserted) <= s.price + 1)
      && (r.ending == Aborted ==> s.amount + Sum(r.inserted) < s.price)
      && (r.ending == InputEnded ==>
            && Pending(r.next) && r.next.item == s.item
            && r.next.amount == s.amount + Sum(r.inserted))
    decreases |input|
  {
    var r := Strict(s, input);
    if input != [] && AcceptedEntry(input[0]) {
      var coin := input[0].value.halves;
      var t := DfaInsert(s, coin);
      if t.next.item.None? {
        assert r.inserted == [coin];
        assert r.inserted[..0] == [];
        SumPrepend(coin, []);
      } else {
        StrictPayment(t.next, input[1..]);
        var rest := Strict(t.next, input[1..]);
        SumPrepend(coin, rest.inserted);
        forall j | 0 <= j < |r.inserted| ensures s.amount + Sum(r.inserted[..j]) < s.price {
          if j == 0 {
            assert r.inserted[..0] == [];
          } else {
            assert r.inserted[..j] == [coin] + rest.inserted[..j - 1];
            SumPrepend(coin, rest.inserted[..j - 1]);
          }
        }
      }
    }
  }

  // ------------------------------------------------------------ permissive loop

  /** An input the permissive loop ignores: an unknown command, or a value that is not a valid coin. */
  predicate Noise(c: Command) {
    c.Unknown? || (c.Insert? && !AcceptedEntry(c.entry))
  }

  /** The commands with every ignored one removed. */
  function Meaningful(cmds: seq<Command>): seq<Command> {
    if cmds == [] then []
    else if Noise(cmds[0]) then Meaningful(cmds[1..])
    else [cmds[0]] + Meaningful(cmds[1..])
  }

  /**
   * Ignored inputs leave the permissive loop's state alone: running it with
   * them removed ends the same way in the same state.
   */
  lemma {:induction false} PermissiveIgnoresNoise(s: State, cmds: seq<Command>)
    ensures Permissive(s, Meaningful(cmds)).ending == Permissive(s, cmds).ending
    ensures Permissive(s, Meaningful(cmds)).next == Permissive(s, cmds).next
    decreases |cmds|
  {
    if cmds != [] {
      var c := cmds[0];
      if Noise(c) {
        PermissiveIgnoresNoise(s, cmds[1..]);
      } else {
        var m := [c] + Meaningful(cmds[1..]);
        assert m[0] == c && m[1..] == Meaningful(cmds[1..]);
        if c.Insert? {
          PermissiveIgnoresNoise(NfaInsert(s, c.entry.value).next, cmds[1..]);
        }
      }
    }
  }

  /**
   * How the permissive loop ends. "2" resets the machine and ends it; a
   * coin that completes the payment ends it with the machine idle; otherwise
   * it reads every command. No command before the last one read was "2".
   */
  lemma {:induction false} PermissiveEnds(s: State, cmds: seq<Command>)
    ensures var r := Permissive(s, cmds);
      && r.used <= |cmds|
      && (r.ending == Aborted ==> r.used > 0 && cmds[r.used - 1] == Cancel && Idle(r.next) && r.next.menu == s.menu)
      && (r.ending == Dispensed ==>
            r.used > 0 && cmds[r.used - 1].Insert? && AcceptedEntry(cmds[r.used - 1].entry) && Idle(r.next))
      && (r.ending == InputEnded ==> r.used == |cmds|)
      && forall i :: 0 <= i < r.used && (r.ending == InputEnded || i < r.used - 1) ==> cmds[i] != Cancel
    decreases |cmds|
  {
    if cmds != [] && !cmds[0].Cancel? {
      var next := if cmds[0].Insert? && cmds[0].entry.Number? then NfaInsert(s, cmds[0].entry.value).next else s;
      PermissiveEnds(next, cmds[1..]);
      var rest := Permissive(next, cmds[1..]);
      var r := Permissive(s, cmds);
      if r.used > 1 {
        assert r == AfterOneMoreRead(rest);
        forall i | 1 <= i < r.used ensures cmds[i] == cmds[1..][i - 1] { }
      }
    }
  }

  /** What one command adds to the amount if the machine takes it: a valid coin's value, else nothing. */
  function Gain(c: Command): int {
    if c.Insert? && AcceptedEntry(c.entry) then c.entry.value.halves else 0
  }

  /** The valid coins among the commands, added up. */
  function CoinSum(cmds: seq<Command>): int {
    if cmds == [] then 0 else Gain(cmds[0]) + CoinSum(cmds[1..])
  }

  lemma CoinSumPrepend(c: Command, cmds: seq<Command>)
    ensures CoinSum([c] + cmds) == Gain(c) + CoinSum(cmds)
  {
    assert ([c] + cmds)[1..] == cmds;
  }

  /**
   * Started on a transaction in progress, the permissive loop adds up exactly
   * the valid coins. Before each command it read, the item was still owed
   * for, so it stops at the first dispense, when the coins read have paid
   * the price with at most RM0.5 over. A cancel comes while the item is still
   * owed for. If the inputs run out first, the item is still selected and
   * the amount is the old one plus every valid coin.
   */
  lemma {:induction false} PermissivePayment(s: State, cmds: seq<Command>)
    requires Pending(s)
    ensures var r := Permissive(s, cmds);
      && r.used <= |cmds|
      && (forall j :: 0 <= j < r.used ==> s.amount + CoinSum(cmds[..j]) < s.price)
      && (r.ending == Dispensed ==> s.price <= s.amount + CoinSum(cmds[..r.used]) <= s.price + 1)
      && (r.ending == Aborted ==> s.amount + CoinSum(cmds[..r.used]) < s.price)
      && (r.ending == InputEnded ==>
            && Pending(r.next) && r.next.item == s.item
            && r.next.amount == s.amount + CoinSum(cmds))
    decreases |cmds|
  {
    if cmds != [] {
      var c := cmds[0];
      var r := Permissive(s, cmds);
      assert cmds[..0] == [];
      if c.Cancel? {
        assert cmds[..1] == [c] && [c][1..] == [];
      } else {
        var next := if c.Insert? && c.entry.Number? then NfaInsert(s, c.entry.value).next else s;
        assert s.amount + Gain(c) == next.amount || next.item.None?;
        if next.item.None? {
          assert r.used == 1;
          assert cmds[..1] == [c] && [c][1..] == [];
        } else {
          PermissivePayment(next, cmds[1..]);
          var rest := Permissive(next, cmds[1..]);
          assert r == AfterOneMoreRead(rest);
          assert cmds[..r.used][1..] == cmds[1..][..rest.used];
          forall j | 1 <= j <= r.used
            ensures s.amount + CoinSum(cmds[..j]) == next.amount + CoinSum(cmds[1..][..j - 1])
          {
            assert cmds[..j] == [c] + cmds[1..][..j - 1];
            CoinSumPrepend(c, cmds[1..][..j - 1]);
          }
        }
      }
    }
  }

  // ------------------------------------------------------------------ examples

  /** The menu shown and item 1 (Water, RM2.00) selected, from a new machine. */
  function WaterSelected(): State {
    Select(DisplayMenu(Initial()), Integer(1)).next
  }

  /** Water paid with RM1 then RM1: dispensed with no change after the second coin. */
  lemma WaterPaidExactly()
    ensures WaterSelected().item == Some("Water") && WaterSelected().price == 4
    ensures NfaInsert(WaterSelected(), OnGrid(2)).change == None
    ensures NfaInsert(NfaInsert(WaterSelected(), OnGrid(2)).next, OnGrid(2)).change == Some(0)
    ensures Permissive(WaterSelected(), [Insert(Number(OnGrid(2))), Insert(Number(OnGrid(2)))])
            == PermissiveRun(Dispensed, Reset(WaterSelected()), 2)
  {
  }

  /** In the strict loop, RM0.75 resets the machine at once. */
  lemma StrictRejectsOddCoin()
    ensures Strict(WaterSelected(), [Number(OffGrid), Number(OnGrid(2))])
            == StrictRun(Aborted, Reset(WaterSelected()), 1, [])
  {
  }

  /**
   * Selecting another item keeps the money already inserted: Chips (item 3),
   * RM1, then Water leaves RM1 paid towards the Water.
   */
  lemma ReselectionKeepsAmount()
    ensures var chips := Select(DisplayMenu(Initial()), Integer(3)).next;
            var paid := NfaInsert(chips, OnGrid(2)).next;
            var water := Select(paid, Integer(1));
            water.ok && water.next.item == Some("Water") && water.next.amount == 2
  {
  }
}
