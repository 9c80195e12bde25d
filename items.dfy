/**
 * Items/Inventory.cs (a capacity-bounded list of consumables) and the
 * consumable component of Items/Consumable.cs that it holds.
 */
module Items {
  import opened Engine
  import opened Collections

  /** `Consumable.ItemType`. */
  datatype ItemType = HealthPotion | Fireball | ScrollOfConfusion

  /**
   * A consumable on the map or in an inventory: its game-object name, its
   * type, its cell and whether its game object is active.
   */
  class Consumable {
    const name: string
    const kind: ItemType
    var position: Cell
    var active: bool

    constructor (name: string, kind: ItemType, position: Cell)
      ensures this.name == name && this.kind == kind && this.position == position && active
    {
      this.name := name;
      this.kind := kind;
      this.position := position;
      active := true;
    }
  }

  class Inventory {
    var items: seq<Consumable>
    var maxItems: int

    /** The capacity bound `AddItem` keeps. */
    ghost predicate Valid()
      reads this
    {
      |items| <= maxItems
    }

    constructor (maxItems: int)
      ensures items == [] && this.maxItems == maxItems
      ensures maxItems >= 0 ==> Valid()
    {
      items := [];
      this.maxItems := maxItems;
    }

    /** Appends `item` when there is room; says whether it did. */
    method AddItem(item: Consumable) returns (added: bool)
      modifies this`items
      ensures added <==> |old(items)| < maxItems
      ensures added ==> items == old(items) + [item]
      ensures !added ==> items == old(items)
      ensures old(Valid()) ==> Valid()
    {
      if |items| < maxItems {
        items := items + [item];
        return true;
      }
      return false;
    }

    /** `List.Remove`: drops the first occurrence of `item`, if any. */
    method DropItem(item: Consumable)
      modifies this`items
      ensures items == RemoveFirst(old(items), item)
      ensures multiset(items) == multiset(old(items)) - multiset{item}
      ensures old(Valid()) ==> Valid()
    {
      RemoveFirstMultiset(items, item);
      items := RemoveFirst(items, item);
    }
  }
}
