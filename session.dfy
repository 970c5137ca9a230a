/**
 * The coin-submission loops of `main`, run after `select_item` has succeeded.
 * Each reads a finite sequence of inputs in place of the console.
 *
 * Strict (DFA) loop: each input is a number to insert; the first invalid or
 * unparseable one resets the machine and ends the loop, and valid coins are
 * inserted for as long as an item is selected.
 *
 * Permissive (NFA) loop: each input is a command; "1" with a number inserts
 * it (an invalid or unparseable value is ignored), "2" cancels and resets,
 * any other command is ignored. The loop ends when an item is dispensed.
 */
module Session {
  import opened Money
  import opened Transitions
  import Machines

  /** What `float(input(...))` gives for one typed coin value. */
  datatype CoinEntry = Number(value: Value) | NotANumber

  /** One round of the permissive loop: command "1" and the value typed after it, "2", or another command. */
  datatype Command = Insert(entry: CoinEntry) | Cancel | Unknown

  /**
   * Why a coin loop ended: an item was dispensed; the transaction was reset
   * (by an invalid entry in the strict loop, by "2" in the permissive one);
   * or the inputs ran out first.
   */
  datatype Ending = Dispensed | Aborted | InputEnded

  /** An entry the strict loop passes on to the machine. */
  predicate AcceptedEntry(e: CoinEntry) {
    e.Number? && IsCoin(e.value)
  }

  /**
   * The result of the strict loop: how it ended, the final state, how many
   * inputs it read and the values it passed to `insert_money`, in order.
   */
  datatype StrictRun = StrictRun(ending: Ending, next: State, used: nat, inserted: seq<int>)

  /** The strict loop from a state with an item selected. */
  function Strict(s: State, input: seq<CoinEntry>): (r: StrictRun)
    requires s.item.Some?
    ensures |r.inserted| <= r.used <= |input|
    ensures r.ending == InputEnded ==> r.used == |input|
    ensures r.ending != InputEnded ==> Idle(r.next)
    ensures r.next.menu == s.menu
    decreases |input|
  {
    if input == [] then StrictRun(InputEnded, s, 0, [])
    else if !AcceptedEntry(input[0]) then StrictRun(Aborted, Reset(s), 1, [])
    else
      var coin := input[0].value.halves;
      var t := DfaInsert(s, coin);
      if t.next.item.None? then StrictRun(Dispensed, t.next, 1, [coin])
      else
        var rest := Strict(t.next, input[1..]);
        StrictRun(rest.ending, rest.next, rest.used + 1, [coin] + rest.inserted)
  }

  /**
   * The strict loop (the DFA branch of `main`). The first input is read before
   * the source's `while`, the rest inside it; since an item is selected on
   * entry, both are one step of this loop.
   */
  method StrictCoinLoop(m: Machines.DfaMachine, input: seq<CoinEntry>)
    returns (ending: Ending, used: nat, inserted: seq<int>)
    requires m.Valid() && m.selectedItem.Some?
    modifies m
    ensures m.Valid()
    ensures Strict(old(m.Abs()), input) == StrictRun(ending, m.Abs(), used, inserted)
  {
    ghost var start := m.Abs();
    used, inserted := 0, [];
    while m.selectedItem.Some?
      invariant m.Valid()
      invariant used <= |input|
      invariant m.selectedItem.Some? ==>
        var rest := Strict(m.Abs(), input[used..]);
        Strict(start, input) == StrictRun(rest.ending, rest.next, used + rest.used, inserted + rest.inserted)
      invariant m.selectedItem.None? ==> Strict(start, input) == StrictRun(Dispensed, m.Abs(), used, inserted)
      decreases |input| - used
    {
      if used == |input| {
        return InputEnded, used, inserted;
      }
      var entry := input[used];
      used := used + 1;
      if !AcceptedEntry(entry) {
        // An unparseable value (the ValueError handler) or a value other than 0.5 and 1.
        m.ResetMachine();
        return Aborted, used, inserted;
      }
      var result := m.InsertMoney(entry.value.halves);
      inserted := inserted + [entry.value.halves];
      assert input[used - 1..][1..] == input[used..];
    }
    ending := Dispensed;
  }

  /** The result of the permissive loop: how it ended, the final state and how many commands it read. */
  datatype PermissiveRun = PermissiveRun(ending: Ending, next: State, used: nat)

  /** A run of the permissive loop preceded by one more command that it read and ignored or applied. */
  function AfterOneMoreRead(r: PermissiveRun): PermissiveRun {
    r.(used := r.used + 1)
  }

  /** The permissive loop from any state. */
  function Permissive(s: State, cmds: seq<Command>): (r: PermissiveRun)
    ensures r.used <= |cmds|
    ensures r.ending == InputEnded ==> r.used == |cmds|
    ensures r.ending != InputEnded ==> 0 < r.used && Idle(r.next)
    ensures r.next.menu == s.menu
    decreases |cmds|
  {
    if cmds == [] then PermissiveRun(InputEnded, s, 0)
    else match cmds[0]
      case Cancel => PermissiveRun(Aborted, Reset(s), 1)
      case Unknown => AfterOneMoreRead(Permissive(s, cmds[1..]))
      case Insert(NotANumber) => AfterOneMoreRead(Permissive(s, cmds[1..]))
      case Insert(Number(v)) =>
        var t := NfaInsert(s, v);
        if t.result && t.next.item.None? then PermissiveRun(Dispensed, t.next, 1)
        else AfterOneMoreRead(Permissive(t.next, cmds[1..]))
  }

  /** The permissive loop (the NFA branch of `main`). */
  method PermissiveCoinLoop(m: Machines.NfaMachine, cmds: seq<Command>)
    returns (ending: Ending, used: nat)
    requires m.Valid()
    modifies m
    ensures m.Valid()
    ensures Permissive(old(m.Abs()), cmds) == PermissiveRun(ending, m.Abs(), used)
  {
    ghost var start := m.Abs();
    used := 0;
    while used < |cmds|
      invariant m.Valid()
      invariant used <= |cmds|
      invariant var rest := Permissive(m.Abs(), cmds[used..]);
        Permissive(start, cmds) == PermissiveRun(rest.ending, rest.next, used + rest.used)
      decreases |cmds| - used
    {
      var command := cmds[used];
      used := used + 1;
      assert cmds[used - 1..][1..] == cmds[used..];
      match command
      case Insert(entry) =>
        if entry.Number? {
          var result := m.InsertMoney(entry.value);
          if result && m.selectedItem.None? {
            return Dispensed, used;
          }
        }
      case Cancel =>
        m.ResetMachine();
        return Aborted, used;
      case Unknown =>
    }
    ending := InputEnded;
  }
}
