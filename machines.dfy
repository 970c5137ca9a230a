/**
 * The two machine classes, `VendingMachineNFA` and `VendingMachineDFA`. They
 * hold the same fields and share every operation except `insert_money`: the
 * NFA version rejects values other than RM0.5 and RM1 and returns True after
 * any accepted coin, the DFA version adds whatever value it is given and
 * returns True only when it dispenses. Each method is specified by the
 * transition function of module Transitions that it implements.
 */
module Machines {
  import opened Options
  import opened Money
  import opened Transitions
  import Catalog

  class NfaMachine {
    /** `self.items`, the catalog dictionary. */
    const items: map<string, nat>
    var menuItems: seq<string>
    var selectedItem: Option<string>
    var selectedPrice: nat
    var currentAmount: int
    /** The numeric value of the label `current_state`. */
    var currentState: int

    function Abs(): State
      reads this
    {
      State(menuItems, selectedItem, selectedPrice, currentAmount, currentState)
    }

    predicate Valid()
      reads this
    {
      items == Catalog.Items() && Inv(Abs())
    }

    /** `__init__`: the catalog, an empty menu, then `reset_machine`. */
    constructor ()
      ensures Valid() && Abs() == Initial()
    {
      items := Catalog.Items();
      menuItems := [];
      selectedItem, selectedPrice, currentAmount, currentState := None, 0, 0, 0;
    }

    method ResetMachine()
      requires Valid()
      modifies this
      ensures Valid() && Abs() == Reset(old(Abs()))
    {
      selectedItem := None;
      selectedPrice := 0;
      currentAmount := 0;
      currentState := 0;
    }

    method SelectItem(itemNumber: ItemNumber) returns (ok: bool)
      requires Valid()
      modifies this
      ensures Valid() && Selection(ok, Abs()) == Select(old(Abs()), itemNumber)
    {
      if itemNumber.NotAnInteger? {
        return false;
      }
      var index := itemNumber.n - 1;
      if 0 <= index < |menuItems| {
        var itemName := menuItems[index];
        Catalog.KeyPrice(index);
        selectedItem := Some(itemName);
        selectedPrice := items[itemName];
        return true;
      } else {
        return false;
      }
    }

    method InsertMoney(value: Value) returns (result: bool)
      requires Valid()
      modifies this
      ensures Valid()
      ensures var step := NfaInsert(old(Abs()), value); result == step.result && Abs() == step.next
    {
      if selectedItem.None? {
        return false;
      }
      if !IsCoin(value) {
        return false;
      }
      currentAmount := currentAmount + value.halves;
      // The label is read back as a number ("q0" reads as 0) and rewritten.
      var currentValue := currentState;
      currentState := currentValue + value.halves;
      if currentAmount >= selectedPrice {
        var change := DispenseItem();
        return true;
      }
      return true;
    }

    /** `dispense_item`: the change it reports is the amount paid minus the price. */
    method DispenseItem() returns (change: int)
      requires Valid()
      modifies this
      ensures Valid() && Abs() == Reset(old(Abs()))
      ensures change == old(currentAmount) - old(selectedPrice)
    {
      change := currentAmount - selectedPrice;
      ResetMachine();
    }

    /** `display_menu`, without the printing: rebuilds `menu_items`. */
    method DisplayMenu()
      requires Valid()
      modifies this
      ensures Valid() && Abs() == Transitions.DisplayMenu(old(Abs()))
    {
      menuItems := Catalog.Keys();
    }
  }

  class DfaMachine {
    /** `self.items`, the catalog dictionary. */
    const items: map<string, nat>
    var menuItems: seq<string>
    var selectedItem: Option<string>
    var selectedPrice: nat
    var currentAmount: int
    /** The numeric value of the label `current_state`. */
    var currentState: int

    function Abs(): State
      reads this
    {
      State(menuItems, selectedItem, selectedPrice, currentAmount, currentState)
    }

    predicate Valid()
      reads this
    {
      items == Catalog.Items() && Inv(Abs())
    }

    /** `__init__`: the catalog, an empty menu, then `reset_machine`. */
    constructor ()
      ensures Valid() && Abs() == Initial()
    {
      items := Catalog.Items();
      menuItems := [];
      selectedItem, selectedPrice, currentAmount, currentState := None, 0, 0, 0;
    }

    method ResetMachine()
      requires Valid()
      modifies this
      ensures Valid() && Abs() == Reset(old(Abs()))
    {
      selectedItem := None;
      selectedPrice := 0;
      currentAmount := 0;
      currentState := 0;
    }

    method SelectItem(itemNumber: ItemNumber) returns (ok: bool)
      requires Valid()
      modifies this
      ensures Valid() && Selection(ok, Abs()) == Select(old(Abs()), itemNumber)
    {
      if itemNumber.NotAnInteger? {
        return false;
      }
      var idx := itemNumber.n - 1;
      if 0 <= idx < |menuItems| {
        var itemName := menuItems[idx];
        Catalog.KeyPrice(idx);
        selectedItem := Some(itemName);
        selectedPrice := items[itemName];
        return true;
      } else {
        return false;
      }
    }

    /** The value is any whole number of half units; it is added unchecked. */
    method InsertMoney(value: int) returns (result: bool)
      requires Valid()
      modifies this
      ensures Valid()
      ensures var step := DfaInsert(old(Abs()), value); result == step.result && Abs() == step.next
    {
      if selectedItem.None? {
        return false;
      }
      currentAmount := currentAmount + value;
      // The label is read back as a number ("q0" reads as 0) and rewritten.
      var currentValue := currentState;
      currentState := currentValue + value;
      if currentAmount >= selectedPrice {
        var change := DispenseItem();
        return true;
      }
      return false;
    }

    /** `dispense_item`: the change it reports is the amount paid minus the price. */
    method DispenseItem() returns (change: int)
      requires Valid()
      modifies this
      ensures Valid() && Abs() == Reset(old(Abs()))
      ensures change == old(currentAmount) - old(selectedPrice)
    {
      change := currentAmount - selectedPrice;
      ResetMachine();
    }

    /** `display_menu`, without the printing: rebuilds `menu_items`. */
    method DisplayMenu()
      requires Valid()
      modifies this
      ensures Valid() && Abs() == Transitions.DisplayMenu(old(Abs()))
    {
      menuItems := Catalog.Keys();
    }
  }
}
