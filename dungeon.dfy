/**
 * Map/DungeonGenerator.cs: rejection-based room placement, room stamping,
 * corridor tunnelling and per-room spawns.
 *
 * Every random draw is an argument: one `RoomDraw` per room slot, holding
 * the outcomes of the `Random.Range` and `Random.value` calls that slot makes
 * (the spawn and corridor draws of a rejected candidate are simply unused).
 * `Room.Overlaps` and `Room.Center` are not part of this model; they are the
 * function arguments `overlaps` and `center`.
 */
module Dungeon {
  import opened Engine
  import opened Carving

  /** The generator's settings (`SetSize`, `SetRoomSize`, `SetMax*`). */
  datatype Config = Config(width: int, height: int, minRoomSize: int, maxRoomSize: int,
                           maxRooms: int, maxEnemies: int, maxItems: int)

  /** One enemy: its cell and whether `Random.value < 0.5` (a "Kip"). */
  datatype EnemyDraw = EnemyDraw(x: int, y: int, kip: bool)

  /**
   * One item: its cell and the outcomes of the two separate `Random.value`
   * comparisons, `< 0.33` and `< 0.66`.
   */
  datatype ItemDraw = ItemDraw(x: int, y: int, below033: bool, below066: bool)

  /**
   * The draws of one room slot: the candidate's size and corner, the drawn
   * numbers of enemies and items with one draw per spawned entity, and
   * whether the corridor goes horizontally first (`Random.value < 0.5`).
   */
  datatype RoomDraw = RoomDraw(width: int, height: int, x: int, y: int,
                               enemyCount: int, enemies: seq<EnemyDraw>,
                               itemCount: int, items: seq<ItemDraw>,
                               horizontalFirst: bool)

  /** One spawn loop runs `Max0(count)` times, one draw per run. */
  predicate Shaped(d: RoomDraw)
  {
    |d.enemies| == Max0(d.enemyCount) && |d.items| == Max0(d.itemCount)
  }

  /** The draws `Random.Range` can produce for a slot under `cfg`. */
  predicate DrawOk(cfg: Config, d: RoomDraw)
  {
    && RangeDraw(d.width, cfg.minRoomSize, cfg.maxRoomSize)
    && RangeDraw(d.height, cfg.minRoomSize, cfg.maxRoomSize)
    && RangeDraw(d.x, 0, cfg.width - d.width - 1)
    && RangeDraw(d.y, 0, cfg.height - d.height - 1)
    && RangeDraw(d.enemyCount, 0, cfg.maxEnemies + 1)
    && RangeDraw(d.itemCount, 0, cfg.maxItems + 1)
    && Shaped(d)
    && (forall e :: e in d.enemies ==>
          RangeDraw(e.x, d.x + 1, d.x + d.width - 1) && RangeDraw(e.y, d.y + 1, d.y + d.height - 1))
    && (forall i :: i in d.items ==>
          RangeDraw(i.x, d.x + 1, d.x + d.width - 1) && RangeDraw(i.y, d.y + 1, d.y + d.height - 1))
  }

  /** The candidate room a slot's draws describe. */
  function Candidate(d: RoomDraw): Room
  {
    Room(d.x, d.y, d.width, d.height)
  }

  /** A `GameManager.CreateActor(name, position)` request. */
  datatype Spawn = Spawn(name: string, cell: Cell)

  function EnemySpawn(e: EnemyDraw): Spawn
  {
    Spawn(if e.kip then "Kip" else "Wesp", Cell(e.x, e.y))
  }

  function ItemSpawn(i: ItemDraw): Spawn
  {
    Spawn(if i.below033 then "HealthPotion" else if i.below066 then "Fireball" else "ScrollOfConfusion",
          Cell(i.x, i.y))
  }

  function EnemySpawns(es: seq<EnemyDraw>): (r: seq<Spawn>)
    ensures |r| == |es|
    ensures forall k :: 0 <= k < |es| ==> r[k] == EnemySpawn(es[k])
  {
    seq(|es|, k requires 0 <= k < |es| => EnemySpawn(es[k]))
  }

  function ItemSpawns(ds: seq<ItemDraw>): (r: seq<Spawn>)
    ensures |r| == |ds|
    ensures forall k :: 0 <= k < |ds| ==> r[k] == ItemSpawn(ds[k])
  {
    seq(|ds|, k requires 0 <= k < |ds| => ItemSpawn(ds[k]))
  }

  // ---------------------------------------------------------------------
  // The specification of `Generate`

  /** What `Generate` has built so far: the tiles, `rooms` and the spawn requests. */
  datatype GenState = GenState(tiles: Tiles, rooms: seq<Room>, spawns: seq<Spawn>)

  /** The effect of one room slot of `Generate`. */
  function Step(overlaps: (Room, seq<Room>) -> bool, center: Room -> Cell,
                s: GenState, d: RoomDraw): GenState
  {
    var room := Candidate(d);
    if overlaps(room, s.rooms) then s
    else
      var spawns := s.spawns + EnemySpawns(d.enemies) + ItemSpawns(d.items);
      GenState(Carve(center, s.tiles, s.rooms, room, d.horizontalFirst), s.rooms + [room], spawns)
  }

  /** The tiles after accepting `room`: stamped, then tunnelled to the last accepted room if any. */
  function Carve(center: Room -> Cell, t: Tiles, rooms: seq<Room>, room: Room, h: bool): Tiles
  {
    var stamped := Stamp(t, room);
    if |rooms| == 0 then stamped
    else Tunnel(stamped, TunnelCoords(center(rooms[|rooms| - 1]), center(room), h))
  }

  /** The room slots of `Generate`, one after the other. */
  function Run(overlaps: (Room, seq<Room>) -> bool, center: Room -> Cell,
               s: GenState, ds: seq<RoomDraw>): GenState
    decreases |ds|
  {
    if ds == [] then s else Step(overlaps, center, Run(overlaps, center, s, ds[..|ds| - 1]), ds[|ds| - 1])
  }

  /** A rejected candidate changes no tile, spawns nothing and leaves `rooms` alone. */
  lemma RejectedChangesNothing(overlaps: (Room, seq<Room>) -> bool, center: Room -> Cell,
                               s: GenState, d: RoomDraw)
    requires overlaps(Candidate(d), s.rooms)
    ensures Step(overlaps, center, s, d) == s
  {
  }

  /**
   * An accepted candidate is appended to `rooms`; its spawns are appended in
   * draw order, enemies first; a corridor is tunnelled from the previously
   * accepted room exactly when there is one.
   */
  lemma AcceptedStep(overlaps: (Room, seq<Room>) -> bool, center: Room -> Cell,
                     s: GenState, d: RoomDraw)
    requires !overlaps(Candidate(d), s.rooms)
    ensures Step(overlaps, center, s, d).rooms == s.rooms + [Candidate(d)]
    ensures Step(overlaps, center, s, d).spawns == s.spawns + EnemySpawns(d.enemies) + ItemSpawns(d.items)
    ensures s.rooms == [] ==> Step(overlaps, center, s, d).tiles == Stamp(s.tiles, Candidate(d))
    ensures s.rooms != [] ==>
      (Step(overlaps, center, s, d).tiles ==
       Tunnel(Stamp(s.tiles, Candidate(d)),
              TunnelCoords(center(s.rooms[|s.rooms| - 1]), center(Candidate(d)), d.horizontalFirst)))
  {
  }

  /**
   * `rooms` only grows, by at most one room per slot, and the rooms already
   * accepted stay as they were.
   */
  lemma {:induction false} RunRooms(overlaps: (Room, seq<Room>) -> bool, center: Room -> Cell,
                                    s: GenState, ds: seq<RoomDraw>)
    ensures |s.rooms| <= |Run(overlaps, center, s, ds).rooms| <= |s.rooms| + |ds|
    ensures Run(overlaps, center, s, ds).rooms[..|s.rooms|] == s.rooms
    decreases |ds|
  {
    if ds != [] {
      RunRooms(overlaps, center, s, ds[..|ds| - 1]);
      var mid := Run(overlaps, center, s, ds[..|ds| - 1]);
      assert mid.rooms[..|s.rooms|] == s.rooms;
      var last := Run(overlaps, center, s, ds).rooms;
      assert last == mid.rooms || last == mid.rooms + [Candidate(ds[|ds| - 1])];
      assert last[..|mid.rooms|] == mid.rooms;
      assert last[..|s.rooms|] == mid.rooms[..|s.rooms|];
    }
  }

  /** Every accepted room was checked against exactly the rooms accepted before it. */
  ghost predicate NoneOverlapEarlier(overlaps: (Room, seq<Room>) -> bool, rooms: seq<Room>)
  {
    forall i :: 0 <= i < |rooms| ==> !overlaps(rooms[i], rooms[..i])
  }

  lemma {:induction false} RunNoOverlap(overlaps: (Room, seq<Room>) -> bool, center: Room -> Cell,
                                        s: GenState, ds: seq<RoomDraw>)
    requires NoneOverlapEarlier(overlaps, s.rooms)
    ensures NoneOverlapEarlier(overlaps, Run(overlaps, center, s, ds).rooms)
    decreases |ds|
  {
    if ds != [] {
      RunNoOverlap(overlaps, center, s, ds[..|ds| - 1]);
      var mid := Run(overlaps, center, s, ds[..|ds| - 1]).rooms;
      var d := ds[|ds| - 1];
      if !overlaps(Candidate(d), mid) {
        var rs := mid + [Candidate(d)];
        forall i | 0 <= i < |rs| ensures !overlaps(rs[i], rs[..i]) {
          if i < |mid| {
            assert rs[i] == mid[i] && rs[..i] == mid[..i];
          } else {
            assert rs[..i] == mid;
          }
        }
      }
    }
  }

  /** No floor tile is ever removed, and a tiled cell always keeps a tile. */
  lemma {:induction false} RunKeepsFloor(overlaps: (Room, seq<Room>) -> bool, center: Room -> Cell,
                                         s: GenState, ds: seq<RoomDraw>)
    ensures s.tiles.floor <= Run(overlaps, center, s, ds).tiles.floor
    ensures s.tiles.floor + s.tiles.walls <=
            Run(overlaps, center, s, ds).tiles.floor + Run(overlaps, center, s, ds).tiles.walls
    decreases |ds|
  {
    if ds != [] {
      var mid := Run(overlaps, center, s, ds[..|ds| - 1]);
      RunKeepsFloor(overlaps, center, s, ds[..|ds| - 1]);
      StepKeepsFloor(overlaps, center, mid, ds[|ds| - 1]);
    }
  }

  lemma StepKeepsFloor(overlaps: (Room, seq<Room>) -> bool, center: Room -> Cell,
                       s: GenState, d: RoomDraw)
    ensures s.tiles.floor <= Step(overlaps, center, s, d).tiles.floor
    ensures s.tiles.floor + s.tiles.walls <=
            Step(overlaps, center, s, d).tiles.floor + Step(overlaps, center, s, d).tiles.walls
  {
    var room := Candidate(d);
    if !overlaps(room, s.rooms) {
      var stamped := Stamp(s.tiles, room);
      StampCarves(s.tiles, room);
      if |s.rooms| != 0 {
        TunnelKeepsFloor(stamped, TunnelCoords(center(s.rooms[|s.rooms| - 1]), center(room), d.horizontalFirst));
      }
    }
  }

  /** Floor and walls never share a cell. */
  lemma {:induction false} RunDisjoint(overlaps: (Room, seq<Room>) -> bool, center: Room -> Cell,
                                       s: GenState, ds: seq<RoomDraw>)
    requires Disjoint(s.tiles)
    ensures Disjoint(Run(overlaps, center, s, ds).tiles)
    decreases |ds|
  {
    if ds != [] {
      var mid := Run(overlaps, center, s, ds[..|ds| - 1]);
      RunDisjoint(overlaps, center, s, ds[..|ds| - 1]);
      var d := ds[|ds| - 1];
      var room := Candidate(d);
      if !overlaps(room, mid.rooms) {
        StampCarves(mid.tiles, room);
        if |mid.rooms| != 0 {
          TunnelCarves(Stamp(mid.tiles, room),
                       TunnelCoords(center(mid.rooms[|mid.rooms| - 1]), center(room), d.horizontalFirst));
        }
      }
    }
  }

  /** A room is carved: its interior is floor and its border is floor or wall. */
  ghost predicate RoomCarved(t: Tiles, r: Room)
  {
    forall c :: InRoom(r, c) ==> c in t.floor || (OnBorder(r, c) && c in t.walls)
  }

  /** The corridor between two room centres is floor, by one of the two routes. */
  ghost predicate Linked(floor: set<Cell>, a: Cell, b: Cell)
  {
    (forall c :: c in TunnelCoords(a, b, true) ==> c in floor) ||
    (forall c :: c in TunnelCoords(a, b, false) ==> c in floor)
  }

  /**
   * What a finished dungeon looks like: every accepted room is carved and
   * consecutive accepted rooms are joined, centre to centre, by floor.
   */
  ghost predicate Carved(center: Room -> Cell, t: Tiles, rooms: seq<Room>)
  {
    && (forall i :: 0 <= i < |rooms| ==> RoomCarved(t, rooms[i]))
    && (forall i :: 0 < i < |rooms| ==> Linked(t.floor, center(rooms[i - 1]), center(rooms[i])))
  }

  lemma CarvedGrows(center: Room -> Cell, t: Tiles, t': Tiles, rooms: seq<Room>)
    requires Carved(center, t, rooms)
    requires t.floor <= t'.floor && t.floor + t.walls <= t'.floor + t'.walls
    ensures Carved(center, t', rooms)
  {
    forall i | 0 <= i < |rooms| ensures RoomCarved(t', rooms[i]) {
      assert RoomCarved(t, rooms[i]);
      forall c | InRoom(rooms[i], c) ensures c in t'.floor || (OnBorder(rooms[i], c) && c in t'.walls) {
        if c !in t.floor {
          assert OnBorder(rooms[i], c) && c in t.walls;
        }
      }
    }
  }

  lemma StampedCarved(center: Room -> Cell, t: Tiles, rooms: seq<Room>, room: Room)
    requires Carved(center, t, rooms)
    ensures Carved(center, Stamp(t, room), rooms)
    ensures RoomCarved(Stamp(t, room), room)
    ensures Disjoint(t) ==> Disjoint(Stamp(t, room))
  {
    StampCarves(t, room);
    CarvedGrows(center, t, Stamp(t, room), rooms);
  }

  /** A corridor makes its two ends `Linked` and keeps every carved room carved. */
  lemma TunnelLinks(center: Room -> Cell, t: Tiles, rooms: seq<Room>, a: Cell, b: Cell, h: bool)
    requires Disjoint(t) && Carved(center, t, rooms)
    ensures Linked(Tunnel(t, TunnelCoords(a, b, h)).floor, a, b)
    ensures Carved(center, Tunnel(t, TunnelCoords(a, b, h)), rooms)
    ensures Disjoint(Tunnel(t, TunnelCoords(a, b, h)))
  {
    var cs := TunnelCoords(a, b, h);
    TunnelCarves(t, cs);
    var f := Tunnel(t, cs).floor;
    assert forall c :: c in cs ==> c in f;
    CarvedGrows(center, t, Tunnel(t, cs), rooms);
  }

  lemma AppendCarved(center: Room -> Cell, t: Tiles, rooms: seq<Room>, room: Room)
    requires Carved(center, t, rooms) && RoomCarved(t, room)
    requires rooms != [] ==> Linked(t.floor, center(rooms[|rooms| - 1]), center(room))
    ensures Carved(center, t, rooms + [room])
  {
    var rs := rooms + [room];
    forall i | 0 <= i < |rs| ensures RoomCarved(t, rs[i]) {
      if i < |rooms| {
        assert rs[i] == rooms[i];
      }
    }
    forall i | 0 < i < |rs| ensures Linked(t.floor, center(rs[i - 1]), center(rs[i])) {
      if i < |rooms| {
        assert rs[i - 1] == rooms[i - 1] && rs[i] == rooms[i];
      }
    }
  }

  lemma StepCarved(overlaps: (Room, seq<Room>) -> bool, center: Room -> Cell, s: GenState, d: RoomDraw)
    requires Disjoint(s.tiles) && Carved(center, s.tiles, s.rooms)
    ensures Carved(center, Step(overlaps, center, s, d).tiles, Step(overlaps, center, s, d).rooms)
    ensures Disjoint(Step(overlaps, center, s, d).tiles)
  {
    var room := Candidate(d);
    if !overlaps(room, s.rooms) {
      assert Step(overlaps, center, s, d).tiles == Carve(center, s.tiles, s.rooms, room, d.horizontalFirst);
      AcceptedCarved(center, s.tiles, s.rooms, room, d.horizontalFirst);
    }
  }

  lemma AcceptedCarved(center: Room -> Cell, t: Tiles, rooms: seq<Room>, room: Room, h: bool)
    requires Disjoint(t) && Carved(center, t, rooms)
    ensures Carved(center, Carve(center, t, rooms, room, h), rooms + [room])
    ensures Disjoint(Carve(center, t, rooms, room, h))
  {
    if |rooms| != 0 {
      AcceptedLater(center, t, rooms, room, h);
    } else {
      StampedCarved(center, t, rooms, room);
      AppendCarved(center, Stamp(t, room), rooms, room);
    }
  }

  lemma AcceptedLater(center: Room -> Cell, t: Tiles, rooms: seq<Room>, room: Room, h: bool)
    requires Disjoint(t) && Carved(center, t, rooms) && rooms != []
    ensures var t' := Tunnel(Stamp(t, room), TunnelCoords(center(rooms[|rooms| - 1]), center(room), h));
            Carved(center, t', rooms + [room]) && Disjoint(t')
  {
    var stamped := Stamp(t, room);
    StampedCarved(center, t, rooms, room);
    var a := center(rooms[|rooms| - 1]);
    var cs := TunnelCoords(a, center(room), h);
    TunnelLinks(center, stamped, rooms, a, center(room), h);
    TunnelKeepsFloor(stamped, cs);
    CarvedGrows(center, stamped, Tunnel(stamped, cs), [room]);
    assert [room][0] == room;
    AppendCarved(center, Tunnel(stamped, cs), rooms, room);
  }

  /**
   * Connectivity of a generated dungeon: starting from disjoint tiles and an
   * empty room list, every accepted room is carved, and each one after the
   * first is joined to the room accepted just before it by a floor corridor
   * between their centres.
   */
  lemma {:induction false} RunCarved(overlaps: (Room, seq<Room>) -> bool, center: Room -> Cell,
                                     s: GenState, ds: seq<RoomDraw>)
    requires Disjoint(s.tiles) && Carved(center, s.tiles, s.rooms)
    ensures Carved(center, Run(overlaps, center, s, ds).tiles, Run(overlaps, center, s, ds).rooms)
    decreases |ds|
  {
    if ds != [] {
      var mid := Run(overlaps, center, s, ds[..|ds| - 1]);
      RunCarved(overlaps, center, s, ds[..|ds| - 1]);
      RunDisjoint(overlaps, center, s, ds[..|ds| - 1]);
      StepCarved(overlaps, center, mid, ds[|ds| - 1]);
    }
  }

  /**
   * A candidate's size lies in [minRoomSize, maxRoomSize) and its corner in
   * [0, width - roomWidth - 1), so every cell of it has 0 <= x <= width - 3
   * and 0 <= y <= height - 3.
   */
  lemma CandidateFits(cfg: Config, d: RoomDraw)
    requires DrawOk(cfg, d)
    requires cfg.minRoomSize < cfg.maxRoomSize < cfg.width && cfg.maxRoomSize < cfg.height
    ensures cfg.minRoomSize <= d.width < cfg.maxRoomSize
    ensures cfg.minRoomSize <= d.height < cfg.maxRoomSize
    ensures forall c :: InRoom(Candidate(d), c) ==> 0 <= c.x <= cfg.width - 3 && 0 <= c.y <= cfg.height - 3
  {
  }

  /**
   * One room slot with `minRoomSize == maxRoomSize == 6` on an 80 by 45 map:
   * the room is 6 by 6 and fits, it is the only room, and it is stamped
   * with no corridor.
   */
  lemma SingleRoomScenario(overlaps: (Room, seq<Room>) -> bool, center: Room -> Cell, cfg: Config, d: RoomDraw)
    requires cfg.width == 80 && cfg.height == 45 && cfg.minRoomSize == 6 && cfg.maxRoomSize == 6
    requires DrawOk(cfg, d)
    requires !overlaps(Candidate(d), [])
    ensures var s := Run(overlaps, center, GenState(Tiles({}, {}), [], []), [d]);
      && s.rooms == [Room(d.x, d.y, 6, 6)]
      && s.tiles == Stamp(Tiles({}, {}), Room(d.x, d.y, 6, 6))
      && 0 <= d.x < 73 && 0 <= d.y < 38
  {
    assert [d][..0] == [];
  }

  /**
   * The spawns of one slot: at most `maxEnemies` enemies and `maxItems`
   * items, each strictly inside the room's border when the room is at least
   * 3 by 3.
   */
  lemma SlotSpawns(cfg: Config, d: RoomDraw)
    requires DrawOk(cfg, d)
    requires cfg.maxEnemies >= 0 && cfg.maxItems >= 0
    ensures 0 <= |EnemySpawns(d.enemies)| <= cfg.maxEnemies
    ensures 0 <= |ItemSpawns(d.items)| <= cfg.maxItems
    ensures d.width >= 3 && d.height >= 3 ==>
      forall sp :: sp in EnemySpawns(d.enemies) + ItemSpawns(d.items) ==> InInterior(Candidate(d), sp.cell)
  {
    if d.width >= 3 && d.height >= 3 {
      var all := EnemySpawns(d.enemies) + ItemSpawns(d.items);
      EnemiesInside(cfg, d);
      ItemsInside(cfg, d);
      forall sp | sp in all ensures InInterior(Candidate(d), sp.cell) {
        var k :| 0 <= k < |all| && all[k] == sp;
        if k >= |d.enemies| {
          assert sp == ItemSpawns(d.items)[k - |d.enemies|];
        }
      }
    }
  }

  lemma EnemiesInside(cfg: Config, d: RoomDraw)
    requires DrawOk(cfg, d) && d.width >= 3 && d.height >= 3
    ensures forall k :: 0 <= k < |d.enemies| ==> InInterior(Candidate(d), EnemySpawns(d.enemies)[k].cell)
  {
    forall k | 0 <= k < |d.enemies| ensures InInterior(Candidate(d), EnemySpawns(d.enemies)[k].cell) {
      assert d.enemies[k] in d.enemies;
    }
  }

  lemma ItemsInside(cfg: Config, d: RoomDraw)
    requires DrawOk(cfg, d) && d.width >= 3 && d.height >= 3
    ensures forall k :: 0 <= k < |d.items| ==> InInterior(Candidate(d), ItemSpawns(d.items)[k].cell)
  {
    forall k | 0 <= k < |d.items| ensures InInterior(Candidate(d), ItemSpawns(d.items)[k].cell) {
      assert d.items[k] in d.items;
    }
  }

  lemma SlotNames(d: RoomDraw)
    ensures forall sp :: sp in EnemySpawns(d.enemies) ==> sp.name == "Kip" || sp.name == "Wesp"
    ensures forall sp :: sp in ItemSpawns(d.items) ==>
      sp.name == "HealthPotion" || sp.name == "Fireball" || sp.name == "ScrollOfConfusion"
  {
  }

  /** None of the names `Generate` spawns is "Player". */
  lemma {:induction false} SpawnNames(overlaps: (Room, seq<Room>) -> bool, center: Room -> Cell,
                                      s: GenState, ds: seq<RoomDraw>)
    requires forall sp :: sp in s.spawns ==> sp.name != "Player"
    ensures forall sp :: sp in Run(overlaps, center, s, ds).spawns ==> sp.name != "Player"
    decreases |ds|
  {
    if ds != [] {
      SpawnNames(overlaps, center, s, ds[..|ds| - 1]);
      var mid := Run(overlaps, center, s, ds[..|ds| - 1]);
      var d := ds[|ds| - 1];
      if !overlaps(Candidate(d), mid.rooms) {
        AcceptedStep(overlaps, center, mid, d);
        SlotNames(d);
        var es, its := EnemySpawns(d.enemies), ItemSpawns(d.items);
        assert "Kip" != "Player" && "Wesp" != "Player";
        assert "HealthPotion" != "Player" && "Fireball" != "Player" && "ScrollOfConfusion" != "Player";
        forall sp | sp in mid.spawns + es + its ensures sp.name != "Player" {
          assert sp in mid.spawns || sp in es || sp in its;
        }
      }
    }
  }

  // ---------------------------------------------------------------------
  // The generator

  class DungeonGenerator {
    var width: int
    var height: int
    var maxRoomSize: int
    var minRoomSize: int
    var maxRooms: int
    var maxEnemies: int
    var maxItems: int
    var rooms: seq<Room>
    /** The `GameManager.CreateActor` requests made so far, in order. */
    var spawns: seq<Spawn>
    /** `MapManager.Get.FloorMap` and `MapManager.Get.ObstacleMap`. */
    const floorMap: Tilemap
    const obstacleMap: Tilemap

    ghost predicate Valid()
      reads this
    {
      floorMap != obstacleMap
    }

    function Settings(): Config
      reads this
    {
      Config(width, height, minRoomSize, maxRoomSize, maxRooms, maxEnemies, maxItems)
    }

    function Current(): Tiles
      reads this, floorMap, obstacleMap
    {
      Tiles(floorMap.cells, obstacleMap.cells)
    }

    constructor (floorMap: Tilemap, obstacleMap: Tilemap)
      requires floorMap != obstacleMap
      ensures Valid()
      ensures this.floorMap == floorMap && this.obstacleMap == obstacleMap
      ensures Settings() == Config(0, 0, 0, 0, 0, 0, 0)
      ensures rooms == [] && spawns == []
    {
      this.floorMap := floorMap;
      this.obstacleMap := obstacleMap;
      width, height, maxRoomSize, minRoomSize := 0, 0, 0, 0;
      maxRooms, maxEnemies, maxItems := 0, 0, 0;
      rooms, spawns := [], [];
    }

    method SetSize(width: int, height: int)
      modifies this`width, this`height
      ensures Settings() == old(Settings()).(width := width, height := height)
    {
      this.width := width;
      this.height := height;
    }

    method SetRoomSize(min: int, max: int)
      modifies this`minRoomSize, this`maxRoomSize
      ensures Settings() == old(Settings()).(minRoomSize := min, maxRoomSize := max)
    {
      minRoomSize := min;
      maxRoomSize := max;
    }

    method SetMaxRooms(max: int)
      modifies this`maxRooms
      ensures Settings() == old(Settings()).(maxRooms := max)
    {
      maxRooms := max;
    }

    method SetMaxEnemies(max: int)
      modifies this`maxEnemies
      ensures Settings() == old(Settings()).(maxEnemies := max)
    {
      maxEnemies := max;
    }

    method SetMaxItems(max: int)
      modifies this`maxItems
      ensures Settings() == old(Settings()).(maxItems := max)
    {
      maxItems := max;
    }

    /** Walls `pos` unless it is floor; says whether it did. */
    method TrySetWallTile(pos: Cell) returns (placed: bool)
      requires Valid()
      modifies obstacleMap
      ensures placed == (pos !in old(floorMap.cells))
      ensures Current() == TryWall(old(Current()), pos)
    {
      if pos in floorMap.cells {
        placed := false;
      } else {
        obstacleMap.cells := obstacleMap.cells + {pos};
        placed := true;
      }
    }

    method SetFloorTile(pos: Cell)
      requires Valid()
      modifies floorMap, obstacleMap
      ensures Current() == SetFloor(old(Current()), pos)
    {
      if pos in obstacleMap.cells {
        obstacleMap.cells := obstacleMap.cells - {pos};
      }
      floorMap.cells := floorMap.cells + {pos};
    }

    /** The nested loops that put a candidate room on the tilemaps. */
    method StampRoom(room: Room)
      requires Valid()
      modifies floorMap, obstacleMap
      ensures Current() == Stamp(old(Current()), room)
    {
      ghost var t0 := Current();
      var x := room.x;
      while x < room.x + room.width
        invariant room.width <= 0 ==> x == room.x
        invariant room.width > 0 ==> room.x <= x <= room.x + room.width
        invariant forall c :: c in floorMap.cells <==>
          c in t0.floor || (InInterior(room, c) && c.x < x)
        invariant forall c :: c in obstacleMap.cells <==>
          (c in t0.walls && !(InInterior(room, c) && c.x < x)) || (OnBorder(room, c) && c.x < x && c !in t0.floor)
        decreases room.x + room.width - x
      {
        var y := room.y;
        while y < room.y + room.height
          invariant room.height <= 0 ==> y == room.y
          invariant room.height > 0 ==> room.y <= y <= room.y + room.height
          invariant forall c :: c in floorMap.cells <==>
            c in t0.floor || (InInterior(room, c) && (c.x < x || (c.x == x && c.y < y)))
          invariant forall c :: c in obstacleMap.cells <==>
            (c in t0.walls && !(InInterior(room, c) && (c.x < x || (c.x == x && c.y < y)))) ||
            (OnBorder(room, c) && (c.x < x || (c.x == x && c.y < y)) && c !in t0.floor)
          decreases room.y + room.height - y
        {
          if x == room.x || x == room.x + room.width - 1 || y == room.y || y == room.y + room.height - 1 {
            var _ := TrySetWallTile(Cell(x, y));
          } else {
            SetFloorTile(Cell(x, y));
          }
          y := y + 1;
        }
        x := x + 1;
      }
      RoomCellsMembership(room);
      assert floorMap.cells == Stamp(t0, room).floor;
      assert obstacleMap.cells == Stamp(t0, room).walls;
    }

    /** Requests `num` enemies, one per draw, in draw order. */
    method PlaceEnemies(num: int, draws: seq<EnemyDraw>)
      requires |draws| == Max0(num)
      modifies this`spawns
      ensures spawns == old(spawns) + EnemySpawns(draws)
    {
      var counter := 0;
      while counter < num
        invariant 0 <= counter <= |draws|
        invariant spawns == old(spawns) + EnemySpawns(draws[..counter])
      {
        var e := draws[counter];
        if e.kip {
          spawns := spawns + [Spawn("Kip", Cell(e.x, e.y))];
        } else {
          spawns := spawns + [Spawn("Wesp", Cell(e.x, e.y))];
        }
        assert EnemySpawns(draws[..counter + 1]) == EnemySpawns(draws[..counter]) + [EnemySpawn(e)];
        counter := counter + 1;
      }
      assert draws[..counter] == draws;
    }

    /** Requests `num` items, one per draw, in draw order. */
    method PlaceItems(num: int, draws: seq<ItemDraw>)
      requires |draws| == Max0(num)
      modifies this`spawns
      ensures spawns == old(spawns) + ItemSpawns(draws)
    {
      var counter := 0;
      while counter < num
        invariant 0 <= counter <= |draws|
        invariant spawns == old(spawns) + ItemSpawns(draws[..counter])
      {
        var i := draws[counter];
        if i.below033 {
          spawns := spawns + [Spawn("HealthPotion", Cell(i.x, i.y))];
        } else if i.below066 {
          spawns := spawns + [Spawn("Fireball", Cell(i.x, i.y))];
        } else {
          spawns := spawns + [Spawn("ScrollOfConfusion", Cell(i.x, i.y))];
        }
        assert ItemSpawns(draws[..counter + 1]) == ItemSpawns(draws[..counter]) + [ItemSpawn(i)];
        counter := counter + 1;
      }
      assert draws[..counter] == draws;
    }

    /** Tries to wall the 3x3 block around `c`, column by column. */
    method WallAround(c: Cell)
      requires Valid()
      modifies obstacleMap
      ensures Current() == Tiles(old(floorMap.cells), old(obstacleMap.cells) + (Block(c) - old(floorMap.cells)))
    {
      ghost var w0 := obstacleMap.cells;
      var x := c.x - 1;
      while x <= c.x + 1
        invariant c.x - 1 <= x <= c.x + 2
        invariant forall n :: n in obstacleMap.cells <==>
          n in w0 || (n !in floorMap.cells && n in Block(c) && n.x < x)
      {
        var y := c.y - 1;
        while y <= c.y + 1
          invariant c.y - 1 <= y <= c.y + 2
          invariant forall n :: n in obstacleMap.cells <==>
            n in w0 || (n !in floorMap.cells && n in Block(c) && (n.x < x || (n.x == x && n.y < y)))
        {
          var _ := TrySetWallTile(Cell(x, y));
          y := y + 1;
        }
        x := x + 1;
      }
      assert obstacleMap.cells == w0 + (Block(c) - floorMap.cells);
    }

    /** An L-shaped corridor between the centres of two rooms. */
    method TunnelBetween(oldRoom: Room, newRoom: Room, center: Room -> Cell, horizontalFirst: bool)
      requires Valid()
      modifies floorMap, obstacleMap
      ensures Current() == Tunnel(old(Current()), TunnelCoords(center(oldRoom), center(newRoom), horizontalFirst))
    {
      var oldRoomCenter := center(oldRoom);
      var newRoomCenter := center(newRoom);
      var tunnelCorner := if horizontalFirst then Cell(newRoomCenter.x, oldRoomCenter.y)
                          else Cell(oldRoomCenter.x, newRoomCenter.y);
      var tunnelCoords := Segment(oldRoomCenter, tunnelCorner) + Segment(tunnelCorner, newRoomCenter);
      assert tunnelCoords == TunnelCoords(oldRoomCenter, newRoomCenter, horizontalFirst);
      CarveAll(tunnelCoords);
    }

    /** `TunnelBetween`'s loop over the coordinate list. */
    method CarveAll(cs: seq<Cell>)
      requires Valid()
      modifies floorMap, obstacleMap
      ensures Current() == Tunnel(old(Current()), cs)
    {
      ghost var t0 := Current();
      var i := 0;
      while i < |cs|
        invariant 0 <= i <= |cs|
        invariant Current() == Tunnel(t0, cs[..i])
      {
        TunnelSnoc(t0, cs, i);
        CarveCell(cs[i]);
        i := i + 1;
      }
      assert cs[..i] == cs;
    }

    /** One iteration of `TunnelBetween`'s loop: floor at `c`, walls around it. */
    method CarveCell(c: Cell)
      requires Valid()
      modifies floorMap, obstacleMap
      ensures Current() == TunnelStep(old(Current()), c)
    {
      SetFloorTile(c);
      WallAround(c);
    }

    /** One room slot of `Generate`'s loop. */
    method PlaceRoom(overlaps: (Room, seq<Room>) -> bool, center: Room -> Cell, d: RoomDraw)
      requires Valid() && Shaped(d)
      modifies this`rooms, this`spawns, floorMap, obstacleMap
      ensures GenState(Current(), rooms, spawns) == Step(overlaps, center, old(GenState(Current(), rooms, spawns)), d)
    {
      ghost var s := GenState(Current(), rooms, spawns);
      var roomWidth, roomHeight := d.width, d.height;
      var roomX, roomY := d.x, d.y;
      var room := Room(roomX, roomY, roomWidth, roomHeight);
      if !overlaps(room, rooms) {
        AcceptRoom(center, room, d);
        AcceptedStep(overlaps, center, s, d);
      } else {
        RejectedChangesNothing(overlaps, center, s, d);
      }
    }

    /** The `PlaceEnemies` and `PlaceItems` calls for one accepted room. */
    method PlaceSpawns(d: RoomDraw)
      requires Shaped(d)
      modifies this`spawns
      ensures spawns == old(spawns) + EnemySpawns(d.enemies) + ItemSpawns(d.items)
    {
      PlaceEnemies(d.enemyCount, d.enemies);
      PlaceItems(d.itemCount, d.items);
    }

    /** What `Generate` does with a candidate that overlaps no accepted room. */
    method AcceptRoom(center: Room -> Cell, room: Room, d: RoomDraw)
      requires Valid() && Shaped(d)
      modifies this`rooms, this`spawns, floorMap, obstacleMap
      ensures old(rooms) == [] ==> Current() == Stamp(old(Current()), room)
      ensures old(rooms) != [] ==>
        Current() == Tunnel(Stamp(old(Current()), room),
                            TunnelCoords(center(old(rooms)[|old(rooms)| - 1]), center(room), d.horizontalFirst))
      ensures rooms == old(rooms) + [room]
      ensures spawns == old(spawns) + EnemySpawns(d.enemies) + ItemSpawns(d.items)
    {
      ghost var t0 := Current();
      StampRoom(room);
      ghost var stamped := Current();
      assert stamped == Stamp(t0, room);
      PlaceSpawns(d);
      assert Current() == stamped;
      if |rooms| != 0 {
        ghost var cs := TunnelCoords(center(rooms[|rooms| - 1]), center(room), d.horizontalFirst);
        assert cs == TunnelCoords(center(old(rooms)[|old(rooms)| - 1]), center(room), d.horizontalFirst);
        TunnelBetween(rooms[|rooms| - 1], room, center, d.horizontalFirst);
        assert Current() == Tunnel(stamped, cs);
        assert Current() == Tunnel(Stamp(t0, room), cs);
      }
      rooms := rooms + [room];
    }

    /**
     * `Generate`: clears `rooms`, then for each room slot places a candidate
     * unless it overlaps an accepted room. The player is placed at the centre
     * of the first accepted room; with no room accepted, `rooms[0]` throws in
     * the source, and the result is `None`.
     */
    method Generate(overlaps: (Room, seq<Room>) -> bool, center: Room -> Cell, draws: seq<RoomDraw>)
      returns (player: Option<Cell>)
      requires Valid()
      requires |draws| == Max0(maxRooms)
      requires forall k :: 0 <= k < |draws| ==> Shaped(draws[k])
      modifies this`rooms, this`spawns, floorMap, obstacleMap
      ensures GenState(Current(), rooms, spawns) ==
              Run(overlaps, center, GenState(old(Current()), [], old(spawns)), draws)
      ensures player == if rooms == [] then None else Some(center(rooms[0]))
    {
      rooms := [];
      ghost var s0 := GenState(Current(), [], spawns);
      var roomNum := 0;
      while roomNum < maxRooms
        invariant 0 <= roomNum <= |draws|
        invariant GenState(Current(), rooms, spawns) == Run(overlaps, center, s0, draws[..roomNum])
      {
        ghost var s := GenState(Current(), rooms, spawns);
        assert draws[..roomNum + 1][..roomNum] == draws[..roomNum];
        PlaceRoom(overlaps, center, draws[roomNum]);
        assert Run(overlaps, center, s0, draws[..roomNum + 1]) == Step(overlaps, center, s, draws[roomNum]);
        roomNum := roomNum + 1;
      }
      assert draws[..roomNum] == draws;
      if rooms == [] {
        player := None;
      } else {
        player := Some(center(rooms[0]));
      }
    }
  }
}
