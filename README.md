# Vending machine transaction model

A Dafny model of the coin-operated vending machine simulator in
`vending-machine.py`. The machine sells items from a fixed price list, accepts
RM0.5 and RM1 coins, tracks the amount paid in a state labelled `q<amount>`,
and dispenses the item and resets once the amount reaches the price. The
source writes the machine twice: `VendingMachineNFA` and `VendingMachineDFA`.
They also drive coin entry differently in `main`:

- the permissive (NFA) loop ignores bad input and lets the user cancel;
- the strict (DFA) loop resets the machine at the first invalid or unparseable coin.

All money is counted in half-ringgit units (RM0.5 = 1, RM1 = 2, Water's
RM2.00 = 4). Every price and every accepted coin is a whole number of these
units, so integer arithmetic on them is exact.

Modules, one per component:

- `Options` (options.dfy): the optional selected item.
- `Catalog` (catalog.dfy): `ListItems.items` as an ordered listing. The
  dictionary is built from it the way a dict literal is; the menu order is its
  key order. Lemmas connect the menu numbering to the prices.
- `Money` (money.dfy): parsed values, the coin test and `calculate_change`.
- `Transitions` (transitions.dfy): the machine state as a value and each
  operation as a pure function: `Reset`, `Select`, `DisplayMenu`, `NfaInsert`
  and `DfaInsert`. The contracts state the invariant `Inv` that both machines
  keep: the label equals the amount; no selection means nothing paid; a
  selected item carries its catalog price.
- `Machines` (machines.dfy): the two classes with the source's fields and
  methods. Each method is specified by the transition function it implements.
- `Session` (session.dfy): the two coin-submission loops of `main` as methods
  over a finite input sequence, each specified by a function (`Strict`,
  `Permissive`).
- `SessionProperties` (properties.dfy): what those loops guarantee, plus a few
  worked examples.

The label `current_state` is a field of its own (`currentState`). As in the
source it is rebuilt from its own previous value on every insertion: "q0"
reads as 0, and "q<x>" becomes "q<x + value>". That it always equals
`current_amount` is proved as part of `Inv`, not assumed.

Where the design text and the code disagree, the model follows the code:

- `select_item` does not clear the amount already paid (vending-machine.py:60-63).
  Re-selecting keeps the money towards the new item (`ReselectionKeepsAmount`);
  it does not forfeit it.
- `VendingMachineDFA.insert_money` does not check the coin (vending-machine.py:252-253).
  Only the strict loop in `main` rejects invalid values.
- Inserting with no item selected is not an error: both versions return False
  and change nothing (vending-machine.py:87-89, 248-250).

## Model

| member | source | states |
|---|---|---|
| Catalog.Items | vending-machine.py:9-18 | the catalog dictionary maps each listed name to its listed price, and every key is a listed name |
| Catalog.Keys | vending-machine.py:174 | `list(self.items.keys())`: the eight names in listing order, without repeats; a name is in the list exactly when it is a key of the dictionary |
| Catalog.ToMapAll | vending-machine.py:9-18 | for distinct names, the dictionary holds every entry at its price and has no other keys |
| Catalog.ToMapAt | vending-machine.py:9-18 | a dictionary literal with distinct names maps each listed name to its own price |
| Catalog.ToMapSource | vending-machine.py:9-18 | every key of the dictionary comes from a listed entry and carries that entry's price |
| Catalog.ListingNamesDistinct | vending-machine.py:10-17 | the eight catalog names are pairwise distinct, so the key list has no repeats |
| Catalog.KeyPrice | vending-machine.py:174-179 | menu position i+1 shows the i-th listed name, and looking that name up gives the i-th listed price |
| Catalog.PriceRange | vending-machine.py:10-17 | every catalog price is between RM2.00 and RM10.00, so no item is free |
| Money.IsCoin | vending-machine.py:93 | the test `value in [0.5, 1]`: a value passes exactly when, read back in ringgit (half units / 2), it is 0.5 or 1.0; off-grid values never pass |
| Money.WholeRinggit | vending-machine.py:159 | `int(amount)` truncates toward zero: the result has the amount's sign and falls short of it by less than one ringgit |
| Money.CalculateChange | vending-machine.py:154-166 | for a non-negative amount: RM1 count is int(amount), at most one RM0.5 coin, breakdown worth exactly the amount; for a negative one: no RM0.5 coin and the truncated RM1 count |
| Money.ChangeOfWorth | vending-machine.py:305-317 | the greedy breakdown is the only exact one with at most one RM0.5 coin: applied to what such a breakdown is worth, it returns that breakdown |
| Transitions.Reset | vending-machine.py:43-48 | the result is idle (no item, price 0, amount 0, label q0) with the menu kept, and the invariant is preserved |
| Transitions.InsertVersionsAgreeOnCoins | vending-machine.py:78-275 | on a valid coin with an item selected, the NFA and DFA insert_money reach the same state with the same change; NFA returns True, DFA returns True only if it dispensed |
| Transitions.ResetIdempotent | vending-machine.py:206-211 | resetting twice is the same as resetting once |
| Transitions.DisplayMenu | vending-machine.py:168-174 | the menu becomes the catalog names in order (eight entries); the transaction fields are untouched |
| Transitions.Select | vending-machine.py:53-76 | succeeds exactly for an integer 1..len(menu); then selects menu entry k (catalog entry k) at its catalog price, keeps amount and label; otherwise nothing changes; an empty menu makes every selection fail; selecting from idle starts a pending transaction |
| Transitions.Accept | vending-machine.py:99-120 | the part both insert_money versions share once a value is taken: amount and label rise by it; the item is dispensed with change amount+value-price and the machine goes idle exactly when the price is reached; otherwise only amount and label change; keeps the invariant |
| Transitions.NfaInsert | vending-machine.py:78-122 | returns True exactly for a coin 0.5 or 1 with an item selected, and otherwise changes nothing; the amount rises by exactly the coin; dispenses with change amount-price >= 0 and goes idle exactly when the price is reached; else it stays selected below the price; keeps the invariant; from a pending transaction the change is 0 or RM0.5 |
| Transitions.DfaInsert | vending-machine.py:241-275 | returns True exactly when it dispensed, i.e. an item was selected and amount+value reached the price; then the machine is idle and the change amount+value-price >= 0; with no selection nothing changes; otherwise the amount rises by the value and stays below the price; keeps the invariant |
| Machines.NfaMachine.constructor | vending-machine.py:33-41 | a new machine has the catalog, an empty menu and is idle |
| Machines.NfaMachine.ResetMachine | vending-machine.py:43-48 | the fields become Reset of the old ones |
| Machines.NfaMachine.SelectItem | vending-machine.py:53-76 | return value and new fields are those of Select |
| Machines.NfaMachine.InsertMoney | vending-machine.py:78-122 | return value and new fields are those of NfaInsert, the label updated from its own old value |
| Machines.NfaMachine.DispenseItem | vending-machine.py:124-152 | the change it computes is amount-price, then it resets; the source prints that change (only when > 0) and returns True, the model returns the change |
| Machines.NfaMachine.DisplayMenu | vending-machine.py:168-181 | menu_items becomes the catalog's key list |
| Machines.DfaMachine.constructor | vending-machine.py:196-204 | a new machine has the catalog, an empty menu and is idle |
| Machines.DfaMachine.ResetMachine | vending-machine.py:206-214 | the fields become Reset of the old ones |
| Machines.DfaMachine.SelectItem | vending-machine.py:216-239 | return value and new fields are those of Select |
| Machines.DfaMachine.InsertMoney | vending-machine.py:241-275 | return value and new fields are those of DfaInsert, the label updated from its own old value |
| Machines.DfaMachine.DispenseItem | vending-machine.py:277-303 | the change it computes is amount-price, then it resets; the source prints that change (only when > 0) and returns True, the model returns the change |
| Machines.DfaMachine.DisplayMenu | vending-machine.py:319-332 | menu_items becomes the catalog's key list |
| Session.Strict | vending-machine.py:376-410 | specification of the strict loop: it reads at most the whole input and inserts at most what it read; it stops early only by dispensing or aborting, and both leave the machine idle; the menu is kept on every ending |
| Session.Permissive | vending-machine.py:412-442 | specification of the permissive loop: it reads at most the whole input; it stops early only after at least one command, by dispensing or cancelling, and both leave the machine idle; the menu is kept on every ending |
| Session.StrictCoinLoop | vending-machine.py:376-410 | ending, final machine state, inputs read and values inserted are those of the strict-loop specification Strict |
| Session.PermissiveCoinLoop | vending-machine.py:412-442 | ending, final machine state and commands read are those of the permissive-loop specification Permissive |
| SessionProperties.StrictInsertsOnlyCoins | vending-machine.py:380-402 | the strict loop passes insert_money only 0.5 or 1, namely the first inputs it read, in order |
| SessionProperties.StrictAbortsOnFirstBadEntry | vending-machine.py:383-409 | the loop aborts exactly at its first invalid or unparseable entry, leaving the machine idle; a run that did not abort read only coins it inserted; a run that ran out of input read all of it; all-valid input never aborts |
| SessionProperties.StrictPayment | vending-machine.py:389-410 | from a pending transaction: before each coin it inserted the item was still owed for, so it reads coins only while the item is selected and unpaid; it dispenses when the coins first reach the price (change at most RM0.5, machine idle); an abort comes while the item is still owed for; if input runs out, the item stays selected with amount = old amount + coins inserted |
| SessionProperties.PermissiveIgnoresNoise | vending-machine.py:419-442 | removing unknown commands, unparseable values and invalid coins changes neither how the loop ends nor its final state |
| SessionProperties.PermissiveEnds | vending-machine.py:414-442 | cancel ends the loop and resets to idle; a dispense ends it with the machine idle, on a valid coin; otherwise every command is read; no earlier command was cancel |
| SessionProperties.PermissivePayment | vending-machine.py:421-429 | from a pending transaction: before each command it read the item was still owed for, so the loop exits at the first dispense, when the valid coins read reach the price with at most RM0.5 over; a cancel comes while the item is still owed for; if input runs out, the item stays selected with amount = old amount + all valid coins |
| SessionProperties.WaterPaidExactly | vending-machine.py:99-122 | Water (item 1, RM2.00) paid RM1 + RM1: no dispense after the first coin, dispensed with zero change after the second |
| SessionProperties.StrictRejectsOddCoin | vending-machine.py:380-387 | in the strict loop RM0.75 resets the machine and ends the loop before any coin is inserted |
| SessionProperties.ReselectionKeepsAmount | vending-machine.py:60-63 | selecting Water after paying RM1 towards Chips keeps RM1 paid |

## Left out

- Printing, `clear_console` and the message text: output only, no effect on state.
- The `time.sleep` pacing delays (vending-machine.py:137-139, 290-292, 386, 398, 408, 436): they do not change state.
- Reading input with `input()`, the mode choice and the outer command menu of `main` (vending-machine.py:337-370, 444-451). The coin loops read a finite sequence of already-classified inputs instead. The item number is given as what `int(...)` would make of it.
- End of input: `input()` would raise an uncaught `EOFError`. The model's loops stop reading and report `InputEnded`.
- General floating point: values are whole half-ringgit counts or "any other value".
- Machines.DfaMachine.InsertMoney: takes only whole half-ringgit values. Its source adds any float unchecked, but its only caller passes 0.5 or 1.
- The string format of `current_state` ("q1.0" and the like) and of the menu prices: the label is modelled by its numeric value.
- DispenseItem (both classes): returns the computed change instead of printing it when positive and returning True; `insert_money` ignores the value either way.
- `calculate_change` appears in both classes but reads no field and is never called by them. It is modelled once, as a function.
- Session.StrictCoinLoop: the source reads the first coin before its `while` and the rest inside it. Since an item is always selected on entry, the model runs all reads in one loop.
