/**
 * Actors/Player.cs: the input handlers of the player and their three-flag
 * inventory mode (open, dropping, using). The inventory list on screen is
 * `ui` (`InventoryUI.Instance`); the list it shows is the player's own
 * `inventory`.
 */
module Players {
  import opened Engine
  import opened Collections
  import opened Items
  import opened Ui
  import opened Game

  /** What a movement key did. */
  datatype MovementOutcome =
    | CursorMoved               // the inventory is open: the cursor moved
    | Ignored                   // the inventory is open and the key is horizontal
    | MoveRequested(direction: Cell) // the inventory is closed: `Action.Move(actor, direction)`

  /** What the grab key did. */
  datatype GrabOutcome = NoItem | Grabbed(item: Consumable) | Full

  class Player {
    /** The game object's `Actor` component. */
    const actor: Actor
    const inventory: Inventory
    const ui: InventoryUI
    var inventoryIsOpen: bool
    var droppingItem: bool
    var usingItem: bool

    /** The mode invariant: a closed inventory has no mode, and at most one mode is set. */
    ghost predicate ModeOk()
      reads this
    {
      (!inventoryIsOpen ==> !droppingItem && !usingItem) && !(droppingItem && usingItem)
    }

    constructor (actor: Actor, inventory: Inventory, ui: InventoryUI)
      ensures this.actor == actor && this.inventory == inventory && this.ui == ui
      ensures inventoryIsOpen && droppingItem && !usingItem
      ensures ModeOk()
    {
      this.actor := actor;
      this.inventory := inventory;
      this.ui := ui;
      inventoryIsOpen := true;
      droppingItem := true;
      usingItem := false;
    }

    /** `Start`: the game manager's player is this actor. */
    method Start(gm: GameManager)
      modifies gm`player
      ensures gm.player == actor
    {
      gm.player := actor;
    }

    /**
     * A movement key with the rounded `direction`: while the inventory is
     * open, up selects the previous item and down the next one; while it is
     * closed the actor is asked to move.
     */
    method OnMovement(direction: Cell) returns (outcome: MovementOutcome)
      requires ui.Valid()
      modifies ui`selected, ui.highlighted
      ensures inventoryIsOpen && direction.y > 0 ==>
        outcome == CursorMoved && ui.selected == PreviousSelection(old(ui.selected), ui.numItems)
      ensures inventoryIsOpen && direction.y < 0 ==>
        outcome == CursorMoved && ui.selected == NextSelection(old(ui.selected), ui.numItems)
      ensures inventoryIsOpen && direction.y == 0 ==> outcome == Ignored
      ensures !inventoryIsOpen ==> outcome == MoveRequested(direction)
      ensures outcome != CursorMoved ==> ui.selected == old(ui.selected) && ui.highlighted[..] == old(ui.highlighted[..])
    {
      if inventoryIsOpen {
        if direction.y > 0 {
          ui.SelectPreviousItem();
          return CursorMoved;
        } else if direction.y < 0 {
          ui.SelectNextItem();
          return CursorMoved;
        }
        return Ignored;
      }
      return MoveRequested(direction);
    }

    /** The exit key: an open inventory is hidden and every flag is cleared. */
    method OnExit()
      modifies this`inventoryIsOpen, this`droppingItem, this`usingItem, ui`shown
      ensures old(inventoryIsOpen) ==> !inventoryIsOpen && !droppingItem && !usingItem && !ui.shown
      ensures !old(inventoryIsOpen) ==>
        && !inventoryIsOpen && droppingItem == old(droppingItem) && usingItem == old(usingItem)
        && ui.shown == old(ui.shown)
      ensures old(ModeOk()) ==> ModeOk()
    {
      if inventoryIsOpen {
        ui.Hide();
        inventoryIsOpen := false;
        droppingItem := false;
        usingItem := false;
      }
    }

    /** The grab key: the first item on the actor's cell goes into the inventory if it fits. */
    method OnGrab(gm: GameManager) returns (outcome: GrabOutcome)
      modifies inventory`items, gm`items, gm.items
      ensures
        var k := IndexOf(old(ItemCells(gm.items)), Some(actor.position));
        && (k == |old(gm.items)| ==>
              outcome == NoItem && inventory.items == old(inventory.items) && gm.items == old(gm.items))
        && (k < |old(gm.items)| && |old(inventory.items)| < inventory.maxItems ==>
              && outcome == Grabbed(old(gm.items)[k])
              && inventory.items == old(inventory.items) + [outcome.item]
              && gm.items == RemoveFirst(old(gm.items), outcome.item)
              && !outcome.item.active)
        && (k < |old(gm.items)| && |old(inventory.items)| >= inventory.maxItems ==>
              outcome == Full && inventory.items == old(inventory.items) && gm.items == old(gm.items))
      ensures forall c: Consumable :: c in old(gm.items) && !(outcome.Grabbed? && c == outcome.item) ==>
        c.position == old(c.position) && c.active == old(c.active)
      ensures outcome.Grabbed? ==> outcome.item.position == old(outcome.item.position)
      ensures old(inventory.Valid()) ==> inventory.Valid()
    {
      var item := gm.GetItemAtLocation(actor.position);
      if item == null {
        return NoItem;
      }
      outcome := PickUp(item, gm);
    }

    /** `OnGrab` once an item was found: into the inventory and off the map, if it fits. */
    method PickUp(item: Consumable, gm: GameManager) returns (outcome: GrabOutcome)
      modifies inventory`items, gm`items, item`active
      ensures |old(inventory.items)| < inventory.maxItems ==>
        && outcome == Grabbed(item) && inventory.items == old(inventory.items) + [item]
        && gm.items == RemoveFirst(old(gm.items), item) && !item.active
      ensures |old(inventory.items)| >= inventory.maxItems ==>
        && outcome == Full && inventory.items == old(inventory.items) && gm.items == old(gm.items)
        && item.active == old(item.active)
      ensures old(inventory.Valid()) ==> inventory.Valid()
    {
      var added := inventory.AddItem(item);
      if added {
        item.active := false;
        gm.RemoveItem(item);
        return Grabbed(item);
      }
      return Full;
    }

    /**
     * The drop key as written: the list it shows is
     * `GetComponent<Inventory>().Items`, but `Inventory` is a plain class
     * and not a component, so the call throws and a closed inventory never
     * opens (`ok` false, nothing changed); an open one is left alone.
     */
    method OnDropAsWritten() returns (ok: bool)
      ensures ok <==> inventoryIsOpen
    {
      ok := inventoryIsOpen;
    }

    /** The use key as written: the same throwing `GetComponent<Inventory>()` as `OnDropAsWritten`. */
    method OnUseAsWritten() returns (ok: bool)
      ensures ok <==> inventoryIsOpen
    {
      ok := inventoryIsOpen;
    }

    /** The drop key: a closed inventory opens, shown, in dropping mode. */
    method OnDrop()
      requires ui.Valid()
      modifies this`inventoryIsOpen, this`droppingItem, ui`selected, ui`numItems, ui`shown, ui.labels, ui.highlighted
      ensures ui.Valid()
      ensures !old(inventoryIsOpen) ==>
        && inventoryIsOpen && droppingItem && usingItem == old(usingItem)
        && ui.shown && ui.labels[..] == LabelsFor(inventory.items)
        && ui.selected == 0 && ui.numItems == |inventory.items|
      ensures old(inventoryIsOpen) ==>
        && inventoryIsOpen && droppingItem == old(droppingItem)
        && ui.shown == old(ui.shown) && ui.labels[..] == old(ui.labels[..])
        && ui.selected == old(ui.selected) && ui.numItems == old(ui.numItems)
      ensures old(ModeOk()) ==> ModeOk()
    {
      if !inventoryIsOpen {
        ui.Show(inventory.items);
        inventoryIsOpen := true;
        droppingItem := true;
      }
    }

    /** The use key: a closed inventory opens, shown, in using mode. */
    method OnUse()
      requires ui.Valid()
      modifies this`inventoryIsOpen, this`usingItem, ui`selected, ui`numItems, ui`shown, ui.labels, ui.highlighted
      ensures ui.Valid()
      ensures !old(inventoryIsOpen) ==>
        && inventoryIsOpen && usingItem && droppingItem == old(droppingItem)
        && ui.shown && ui.labels[..] == LabelsFor(inventory.items)
        && ui.selected == 0 && ui.numItems == |inventory.items|
      ensures old(inventoryIsOpen) ==>
        && inventoryIsOpen && usingItem == old(usingItem)
        && ui.shown == old(ui.shown) && ui.labels[..] == old(ui.labels[..])
        && ui.selected == old(ui.selected) && ui.numItems == old(ui.numItems)
      ensures old(ModeOk()) ==> ModeOk()
    {
      if !inventoryIsOpen {
        ui.Show(inventory.items);
        inventoryIsOpen := true;
        usingItem := true;
      }
    }

    /** The dropping branch of `OnSelect`: the item is back on the actor's cell and in `Items`. */
    method PutDown(item: Consumable, gm: GameManager)
      modifies item`position, item`active, gm`items
      ensures item.position == actor.position && item.active
      ensures gm.items == old(gm.items) + [item]
    {
      item.position := actor.position;
      gm.AddItem(item);
      item.active := true;
    }

    /**
     * The select key on an open inventory: the item under the cursor leaves
     * the inventory; when dropping it is put back on the actor's cell and in
     * `Items` (dropping wins over using); then the list is hidden and every
     * flag cleared. A cursor outside the inventory makes the indexer throw
     * before anything changes: `ok` is false.
     */
    method OnSelect(gm: GameManager) returns (ok: bool)
      modifies this`inventoryIsOpen, this`droppingItem, this`usingItem, ui`shown
      modifies inventory`items, gm`items
      modifies if 0 <= ui.selected < |inventory.items| then {inventory.items[ui.selected]} else {}
      ensures ok <==> !old(inventoryIsOpen) || 0 <= ui.selected < |old(inventory.items)|
      ensures !ok || !old(inventoryIsOpen) ==>
        && inventoryIsOpen == old(inventoryIsOpen) && droppingItem == old(droppingItem)
        && usingItem == old(usingItem) && ui.shown == old(ui.shown)
        && inventory.items == old(inventory.items) && gm.items == old(gm.items)
      ensures ok && old(inventoryIsOpen) ==>
        var item := old(inventory.items)[ui.selected];
        && inventory.items == RemoveFirst(old(inventory.items), item)
        && (old(droppingItem) ==> gm.items == old(gm.items) + [item] && item.position == actor.position && item.active)
        && (!old(droppingItem) ==>
              gm.items == old(gm.items) && item.position == old(item.position) && item.active == old(item.active))
        && !inventoryIsOpen && !droppingItem && !usingItem && !ui.shown
      ensures old(inventory.Valid()) ==> inventory.Valid()
      ensures old(ModeOk()) ==> ModeOk()
    {
      if !inventoryIsOpen {
        return true;
      }
      if !(0 <= ui.selected < |inventory.items|) {
        return false;
      }
      var selectedItem := inventory.items[ui.selected];
      inventory.DropItem(selectedItem);
      if droppingItem {
        PutDown(selectedItem, gm);
      } else if usingItem {
        // `UseItem` only logs; the item's game object is destroyed.
      }
      ui.Hide();
      inventoryIsOpen := false;
      droppingItem := false;
      usingItem := false;
      return true;
    }
  }
}
