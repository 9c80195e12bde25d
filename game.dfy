/**
 * Actors/Actor.cs (hit points, movement, field of view), Actors/Enemy.cs
 * (the enemy's turn) and GameManager.cs (the registries of the current
 * floor). The visibility algorithm and A* are function arguments; a game
 * object's position is its grid cell.
 */
module Game {
  import opened Engine
  import opened Collections
  import opened Items
  import opened Map

  /** `Heal`'s new hit points: the smaller of `hitPoints + hp` and `maxHitPoints`. */
  function Healed(hitPoints: int, maxHitPoints: int, hp: int): (r: int)
    ensures r <= hitPoints + hp && r <= maxHitPoints
    ensures r == hitPoints + hp || r == maxHitPoints
  {
    if hitPoints + hp > maxHitPoints then maxHitPoints else hitPoints + hp
  }

  /** `DoDamage`'s new hit points: the larger of `hitPoints - hp` and 0. */
  function Damaged(hitPoints: int, hp: int): (r: int)
    ensures r >= hitPoints - hp && r >= 0
    ensures r == hitPoints - hp || r == 0
  {
    if hitPoints - hp < 0 then 0 else hitPoints - hp
  }

  /** With a non-negative amount both keep hit points within [0, maxHitPoints]. */
  lemma HitPointsStayInRange(hitPoints: int, maxHitPoints: int, hp: int)
    requires 0 <= hitPoints <= maxHitPoints && hp >= 0
    ensures hitPoints <= Healed(hitPoints, maxHitPoints, hp) <= maxHitPoints
    ensures 0 <= Damaged(hitPoints, hp) <= hitPoints
    ensures Healed(hitPoints, maxHitPoints, hp) - hitPoints <= hp
  {
  }

  class Ladder {
    var up: bool
    var position: Cell

    constructor (up: bool, position: Cell)
      ensures this.up == up && this.position == position
    {
      this.up := up;
      this.position := position;
    }
  }

  class TombStone {
    var position: Cell

    constructor (position: Cell)
      ensures this.position == position
    {
      this.position := position;
    }
  }

  class Actor {
    var fieldOfView: seq<Cell>
    var fieldOfViewRange: int
    var maxHitPoints: int
    var hitPoints: int
    var defense: int
    var power: int
    var position: Cell
    /** Whether the game object has a `Player` component. */
    const isPlayer: bool
    /** The game object's `Enemy` component, if any; fixed when the object is made. */
    const enemy: Enemy?

    constructor (position: Cell, defense: int, power: int, isPlayer: bool, enemy: Enemy?)
      ensures this.position == position && this.defense == defense && this.power == power
      ensures this.isPlayer == isPlayer && this.enemy == enemy
      ensures maxHitPoints == 30 && hitPoints == 30
      ensures fieldOfView == [] && fieldOfViewRange == 8
    {
      this.position := position;
      this.defense := defense;
      this.power := power;
      this.isPlayer := isPlayer;
      this.enemy := enemy;
      maxHitPoints, hitPoints := 30, 30;
      fieldOfView, fieldOfViewRange := [], 8;
    }

    /** Heals by `hp`, capped at the maximum; returns the amount actually healed. */
    method Heal(hp: int) returns (healedAmount: int)
      modifies this`hitPoints
      ensures hitPoints == Healed(old(hitPoints), maxHitPoints, hp)
      ensures healedAmount == hitPoints - old(hitPoints)
    {
      var previousHitPoints := hitPoints;
      hitPoints := hitPoints + hp;
      if hitPoints > maxHitPoints {
        hitPoints := maxHitPoints;
      }
      healedAmount := hitPoints - previousHitPoints;
    }

    /**
     * `Die`: a dying enemy leaves `Enemies`; either way the remains are
     * created through `CreateActor("Dead", ...)`, whose `Actor` component
     * (if any) is `remains`.
     */
    method Die(gm: GameManager, remains: Actor?)
      modifies gm`enemies, gm`player
      ensures gm.player == old(gm.player)
      ensures isPlayer ==> gm.enemies == old(gm.enemies) + [remains]
      ensures !isPlayer ==> gm.enemies == RemoveFirst(old(gm.enemies), this) + [remains]
    {
      if !isPlayer {
        gm.RemoveEnemy(this);
      }
      gm.CreateActor("Dead", remains);
    }

    /** Takes `hp` damage, floored at 0, and dies exactly when that leaves 0. */
    method DoDamage(hp: int, gm: GameManager, remains: Actor?) returns (died: bool)
      modifies this`hitPoints, gm`enemies, gm`player
      ensures hitPoints == Damaged(old(hitPoints), hp)
      ensures died <==> hitPoints == 0
      ensures gm.player == old(gm.player)
      ensures !died ==> gm.enemies == old(gm.enemies)
      ensures died && isPlayer ==> gm.enemies == old(gm.enemies) + [remains]
      ensures died && !isPlayer ==> gm.enemies == RemoveFirst(old(gm.enemies), this) + [remains]
    {
      hitPoints := hitPoints - hp;
      if hitPoints < 0 {
        hitPoints := 0;
      }
      died := hitPoints == 0;
      if died {
        Die(gm, remains);
      }
    }

    /** Steps by `direction` when the target cell is walkable; stays otherwise. */
    method Move(direction: Cell, mm: MapManager)
      modifies this`position
      ensures mm.IsWalkable(Add(old(position), direction)) ==> position == Add(old(position), direction)
      ensures !mm.IsWalkable(Add(old(position), direction)) ==> position == old(position)
    {
      if mm.IsWalkable(Add(position, direction)) {
        position := Add(position, direction);
      }
    }

    /**
     * Recomputes the field of view with the visibility algorithm `compute`
     * (origin, range) and, for the player, updates the fog of war with it.
     */
    method UpdateFieldOfView(mm: MapManager, compute: (Cell, int) -> seq<Cell>)
      requires isPlayer ==> forall c :: c in mm.visibleTiles ==> c in mm.tiles
      requires isPlayer ==> forall c :: c in compute(position, fieldOfViewRange) ==> c in mm.tiles
      modifies this`fieldOfView, mm`tiles, mm`visibleTiles
      ensures fieldOfView == compute(position, fieldOfViewRange)
      ensures isPlayer ==> mm.visibleTiles == fieldOfView
      ensures isPlayer ==> mm.tiles == FogUpdate(old(mm.tiles), old(mm.visibleTiles), fieldOfView)
      ensures !isPlayer ==> mm.tiles == old(mm.tiles) && mm.visibleTiles == old(mm.visibleTiles)
    {
      var pos := position;
      fieldOfView := [];
      fieldOfView := fieldOfView + compute(pos, fieldOfViewRange);
      if isPlayer {
        mm.UpdateFogMap(fieldOfView);
      }
    }
  }

  /** What an enemy's turn did. */
  datatype AiOutcome =
    | NullTarget            // no target and no player: `Target.transform` threw
    | Waited                // not fighting and the target is out of sight
    | Chased(direction: Cell) // the A* step handed to `Action.Move`

  /**
   * The enemy component. Its methods take `actor`, the `Actor` component of
   * the same game object (`GetComponent<Actor>()`), whose `enemy` is this.
   */
  class Enemy {
    var target: Actor?
    var isFighting: bool

    constructor ()
      ensures target == null && !isFighting
    {
      target := null;
      isFighting := false;
    }

    /** `Start` registers the actor with the game manager. */
    method Start(actor: Actor, gm: GameManager)
      requires actor.enemy == this
      modifies gm`enemies
      ensures gm.enemies == old(gm.enemies) + [actor]
    {
      gm.AddEnemy(actor);
    }

    /** `MoveAlongPath`: the A* step from the enemy's cell towards `targetPosition`. */
    method MoveAlongPath(actor: Actor, targetPosition: Cell, path: (Cell, Cell) -> Cell) returns (direction: Cell)
      requires actor.enemy == this
      ensures direction == path(actor.position, targetPosition)
    {
      var gridPosition := actor.position;
      direction := path(gridPosition, targetPosition);
    }

    method RunAI(actor: Actor, gm: GameManager, path: (Cell, Cell) -> Cell) returns (outcome: AiOutcome)
      requires actor.enemy == this
      modifies this`target, this`isFighting
      ensures old(target) == null ==> target == gm.player
      ensures old(target) != null ==> target == old(target)
      ensures outcome == NullTarget <==> target == null
      ensures target != null ==> (outcome.Chased? <==> old(isFighting) || target.position in actor.fieldOfView)
      ensures outcome.Chased? ==> outcome.direction == path(actor.position, target.position)
      ensures isFighting <==> old(isFighting) || outcome.Chased?
    {
      if target == null {
        target := gm.player;
      }
      if target == null {
        return NullTarget;
      }
      var gridPosition := target.position;
      if isFighting || gridPosition in actor.fieldOfView {
        if !isFighting {
          isFighting := true;
        }
        var direction := MoveAlongPath(actor, gridPosition, path);
        return Chased(direction);
      }
      return Waited;
    }
  }

  /** The cells of a list of actors, `None` for a null entry. */
  function ActorCells(es: seq<Actor?>): (r: seq<Option<Cell>>)
    reads es
    ensures |r| == |es|
    ensures forall i :: 0 <= i < |es| ==> r[i] == if es[i] == null then None else Some(es[i].position)
    decreases |es|
  {
    if es == [] then []
    else ActorCells(es[..|es| - 1]) + [if es[|es| - 1] == null then None else Some(es[|es| - 1].position)]
  }

  function ItemCells(es: seq<Consumable?>): (r: seq<Option<Cell>>)
    reads es
    ensures |r| == |es|
    ensures forall i :: 0 <= i < |es| ==> r[i] == if es[i] == null then None else Some(es[i].position)
    decreases |es|
  {
    if es == [] then []
    else ItemCells(es[..|es| - 1]) + [if es[|es| - 1] == null then None else Some(es[|es| - 1].position)]
  }

  function LadderCells(es: seq<Ladder?>): (r: seq<Option<Cell>>)
    reads es
    ensures |r| == |es|
    ensures forall i :: 0 <= i < |es| ==> r[i] == if es[i] == null then None else Some(es[i].position)
    decreases |es|
  {
    if es == [] then []
    else LadderCells(es[..|es| - 1]) + [if es[|es| - 1] == null then None else Some(es[|es| - 1].position)]
  }

  /** The non-null actors `near` the location, in list order. */
  function Nearby(es: seq<Actor?>, location: Cell, near: (Cell, Cell) -> bool): (r: seq<Actor>)
    reads es
    ensures |r| <= |es|
    ensures forall a :: a in r ==> a in es && near(a.position, location)
    decreases |es|
  {
    if es == [] then []
    else
      var e := es[|es| - 1];
      Nearby(es[..|es| - 1], location, near) + (if e != null && near(e.position, location) then [e] else [])
  }

  /** Every non-null actor that is near is listed. */
  lemma {:induction false} NearbyComplete(es: seq<Actor?>, location: Cell, near: (Cell, Cell) -> bool)
    ensures forall a: Actor :: a in es && near(a.position, location) ==> a in Nearby(es, location, near)
    decreases |es|
  {
    if es != [] {
      var init := es[..|es| - 1];
      NearbyComplete(init, location, near);
      forall a: Actor | a in es && near(a.position, location) ensures a in Nearby(es, location, near) {
        if a != es[|es| - 1] {
          var i :| 0 <= i < |es| && es[i] == a;
          assert a in init by { assert init[i] == a; }
        }
      }
    }
  }

  /** `GetComponent<Enemy>()` of each entry, null for a null entry. */
  function ComponentsOf(es: seq<Actor?>): (r: seq<Enemy?>)
    ensures |r| == |es|
    ensures forall i :: 0 <= i < |es| ==> r[i] == if es[i] == null then null else es[i].enemy
    decreases |es|
  {
    if es == [] then []
    else ComponentsOf(es[..|es| - 1]) + [if es[|es| - 1] == null then null else es[|es| - 1].enemy]
  }

  /** The non-null entries, in order. */
  function Present(cs: seq<Enemy?>): (r: seq<Enemy>)
    ensures |r| <= |cs|
    decreases |cs|
  {
    if cs == [] then []
    else Present(cs[..|cs| - 1]) + (if cs[|cs| - 1] != null then [cs[|cs| - 1]] else [])
  }

  /** The `Enemy` components of the non-null actors, in list order. */
  function AiComponents(es: seq<Actor?>): (r: seq<Enemy>)
  {
    Present(ComponentsOf(es))
  }

  class GameManager {
    var player: Actor?
    var enemies: seq<Actor?>
    var items: seq<Consumable?>
    var ladders: seq<Ladder?>
    var tombStones: seq<TombStone?>

    constructor ()
      ensures player == null && enemies == [] && items == [] && ladders == [] && tombStones == []
    {
      player := null;
      enemies, items, ladders, tombStones := [], [], [], [];
    }

    /** The player at `location` first, else the first enemy there, else null. */
    method GetActorAtLocation(location: Cell) returns (actor: Actor?)
      ensures player != null && player.position == location ==> actor == player
      ensures !(player != null && player.position == location) ==>
        var k := IndexOf(ActorCells(enemies), Some(location));
        actor == if k == |enemies| then null else enemies[k]
    {
      if player != null && player.position == location {
        return player;
      }
      var i := 0;
      while i < |enemies|
        invariant 0 <= i <= |enemies|
        invariant forall j :: 0 <= j < i ==> ActorCells(enemies)[j] != Some(location)
      {
        var enemy := enemies[i];
        if enemy != null && enemy.position == location {
          return enemy;
        }
        i := i + 1;
      }
      return null;
    }

    /** The first item at `location`, else null. */
    method GetItemAtLocation(location: Cell) returns (item: Consumable?)
      ensures var k := IndexOf(ItemCells(items), Some(location));
              item == if k == |items| then null else items[k]
    {
      var i := 0;
      while i < |items|
        invariant 0 <= i <= |items|
        invariant forall j :: 0 <= j < i ==> ItemCells(items)[j] != Some(location)
      {
        var candidate := items[i];
        if candidate != null && candidate.position == location {
          return candidate;
        }
        i := i + 1;
      }
      return null;
    }

    /** The first ladder at `location`, else null. */
    method GetLadderAtLocation(location: Cell) returns (ladder: Ladder?)
      ensures var k := IndexOf(LadderCells(ladders), Some(location));
              ladder == if k == |ladders| then null else ladders[k]
    {
      var i := 0;
      while i < |ladders|
        invariant 0 <= i <= |ladders|
        invariant forall j :: 0 <= j < i ==> LadderCells(ladders)[j] != Some(location)
      {
        var candidate := ladders[i];
        if candidate != null && candidate.position == location {
          return candidate;
        }
        i := i + 1;
      }
      return null;
    }

    /**
     * Routes a new actor: one named "Player" becomes `Player`, anything else
     * (the items and remains included) is appended to `Enemies`.
     * `component` is `GetComponent<Actor>()` of the instantiated prefab.
     */
    method CreateActor(name: string, component: Actor?)
      modifies this`player, this`enemies
      ensures name == "Player" ==> player == component && enemies == old(enemies)
      ensures name != "Player" ==> player == old(player) && enemies == old(enemies) + [component]
    {
      if name == "Player" {
        player := component;
      } else {
        AddEnemy(component);
      }
    }

    /** Registers a new item; `component` is its `Consumable` component. */
    method CreateItem(name: string, component: Consumable?)
      modifies this`items
      ensures items == old(items) + [component]
    {
      AddItem(component);
    }

    method AddEnemy(enemy: Actor?)
      modifies this`enemies
      ensures enemies == old(enemies) + [enemy]
    {
      enemies := enemies + [enemy];
    }

    method AddItem(item: Consumable?)
      modifies this`items
      ensures items == old(items) + [item]
    {
      items := items + [item];
    }

    method AddLadder(ladder: Ladder?)
      modifies this`ladders
      ensures ladders == old(ladders) + [ladder]
    {
      ladders := ladders + [ladder];
    }

    method AddTombStone(stone: TombStone?)
      modifies this`tombStones
      ensures tombStones == old(tombStones) + [stone]
    {
      tombStones := tombStones + [stone];
    }

    /** Empties the four registries (their game objects are destroyed). */
    method ClearFloor()
      modifies this`enemies, this`items, this`ladders, this`tombStones
      ensures enemies == [] && items == [] && ladders == [] && tombStones == []
    {
      enemies := [];
      items := [];
      ladders := [];
      tombStones := [];
    }

    /** `Start`: the player reference and one ladder going up at the origin. */
    method Start(component: Actor?) returns (ladder: Ladder)
      modifies this`player, this`ladders
      ensures player == component
      ensures fresh(ladder) && ladder.up && ladder.position == Cell(0, 0)
      ensures ladders == old(ladders) + [ladder]
    {
      player := component;
      ladder := new Ladder(false, Cell(0, 0));
      ladder.up := true;
      ladder.position := Cell(0, 0);
      AddLadder(ladder);
    }

    /** One iteration of `StartEnemyTurn`: the AI of one list entry, if it has one. */
    method RunComponent(enemy: Actor?, path: (Cell, Cell) -> Cell) returns (step: seq<Enemy>, ok: bool)
      modifies if enemy != null && enemy.enemy != null then {enemy.enemy} else {}
      ensures step == if enemy != null && enemy.enemy != null then [enemy.enemy] else []
      ensures !ok ==> step != [] && step[0].target == null && player == null
      ensures player != null || step == [] ==> ok
    {
      step, ok := [], true;
      if enemy != null {
        var enemyComponent := enemy.enemy;
        if enemyComponent != null {
          var outcome := enemyComponent.RunAI(enemy, this, path);
          step, ok := [enemyComponent], outcome != NullTarget;
        }
      }
    }

    /**
     * Runs the AI of every non-null enemy with an `Enemy` component, in list
     * order. The one exception (`NullTarget`) ends the turn early.
     */
    method StartEnemyTurn(path: (Cell, Cell) -> Cell) returns (ran: seq<Enemy>, ok: bool)
      modifies AiComponents(enemies)
      ensures |ran| <= |AiComponents(enemies)| && ran == AiComponents(enemies)[..|ran|]
      ensures ok ==> ran == AiComponents(enemies)
      ensures !ok ==> ran != [] && ran[|ran| - 1].target == null && player == null
      ensures player != null ==> ok
    {
      ghost var comps := ComponentsOf(enemies);
      ran := [];
      var i := 0;
      while i < |enemies|
        invariant 0 <= i <= |enemies|
        invariant ran == Present(comps[..i])
      {
        PresentPrefix(comps, i + 1);
        PresentStep(comps, i);
        assert comps[i] != null ==> comps[i] == Present(comps)[|ran|];
        var step, stepOk := RunComponent(enemies[i], path);
        ran := ran + step;
        if !stepOk {
          return ran, false;
        }
        i := i + 1;
      }
      assert comps[..i] == comps;
      return ran, true;
    }

    /** Every non-null enemy near `location`, in list order; changes nothing. */
    method GetNearbyEnemies(location: Cell, near: (Cell, Cell) -> bool) returns (nearbyEnemies: seq<Actor>)
      ensures nearbyEnemies == Nearby(enemies, location, near)
    {
      nearbyEnemies := [];
      var i := 0;
      while i < |enemies|
        invariant 0 <= i <= |enemies|
        invariant nearbyEnemies == Nearby(enemies[..i], location, near)
      {
        var enemy := enemies[i];
        assert enemies[..i + 1][..i] == enemies[..i];
        if enemy != null && near(enemy.position, location) {
          nearbyEnemies := nearbyEnemies + [enemy];
        }
        i := i + 1;
      }
      assert enemies[..i] == enemies;
    }

    method RemoveEnemy(enemy: Actor)
      modifies this`enemies
      ensures enemies == RemoveFirst(old(enemies), enemy)
    {
      enemies := RemoveFirst(enemies, enemy);
    }

    method RemoveItem(item: Consumable)
      modifies this`items
      ensures items == RemoveFirst(old(items), item)
    {
      items := RemoveFirst(items, item);
    }
  }

  /** Filtering a prefix gives a prefix of the filtered sequence. */
  lemma {:induction false} PresentPrefix(cs: seq<Enemy?>, i: nat)
    requires i <= |cs|
    ensures |Present(cs[..i])| <= |Present(cs)|
    ensures Present(cs[..i]) == Present(cs)[..|Present(cs[..i])|]
    decreases |cs|
  {
    if i == |cs| {
      assert cs[..i] == cs;
    } else {
      var init := cs[..|cs| - 1];
      PresentPrefix(init, i);
      assert init[..i] == cs[..i];
    }
  }

  /** Extending the prefix by one entry adds that entry, if it is not null. */
  lemma PresentStep(cs: seq<Enemy?>, i: nat)
    requires i < |cs|
    ensures Present(cs[..i + 1]) == Present(cs[..i]) + (if cs[i] != null then [cs[i]] else [])
  {
    assert cs[..i + 1][..i] == cs[..i];
  }

  /** The filter keeps exactly the non-null entries. */
  lemma {:induction false} PresentMembers(cs: seq<Enemy?>)
    ensures forall e: Enemy :: e in Present(cs) <==> e in cs
    decreases |cs|
  {
    if cs != [] {
      var init := cs[..|cs| - 1];
      PresentMembers(init);
      assert cs == init + [cs[|cs| - 1]];
    }
  }
}
