/**
 * Map/MapManager.cs: map bounds and walkability, the tile dictionary built
 * from the floor and obstacle tilemaps, the fog-of-war ledger and the floor
 * counter.
 */
module Map {
  import opened Engine
  import opened Carving
  import opened Dungeon

  /** An entry of the `Tiles` dictionary. */
  datatype TileData = TileData(name: string, isExplored: bool, isVisible: bool)

  /**
   * The effect of `UpdateFogMap(fov)` on `Tiles`: the cells of the old
   * `VisibleTiles` become explored and hidden, then the cells of `fov`
   * become visible.
   */
  function FogUpdate(tiles: map<Cell, TileData>, visible: seq<Cell>, fov: seq<Cell>): (r: map<Cell, TileData>)
    ensures r.Keys == tiles.Keys
    ensures forall c :: c in tiles ==> r[c].name == tiles[c].name
    ensures forall c :: c in tiles ==> (r[c].isExplored <==> tiles[c].isExplored || c in visible)
    ensures forall c :: c in tiles ==> (r[c].isVisible <==> c in fov || (tiles[c].isVisible && c !in visible))
    ensures forall c :: c in tiles && c !in visible && c !in fov ==> r[c] == tiles[c]
  {
    map c | c in tiles ::
      var t := tiles[c];
      var hidden := if c in visible then t.(isExplored := true, isVisible := false) else t;
      if c in fov then hidden.(isVisible := true) else hidden
  }

  /** `Tiles` and `VisibleTiles` after one `UpdateFogMap` per field of view in `fovs`. */
  function Turns(tiles: map<Cell, TileData>, fovs: seq<seq<Cell>>): (map<Cell, TileData>, seq<Cell>)
    decreases |fovs|
  {
    if fovs == [] then (tiles, [])
    else
      var prev := Turns(tiles, fovs[..|fovs| - 1]);
      (FogUpdate(prev.0, prev.1, fovs[|fovs| - 1]), fovs[|fovs| - 1])
  }

  /** A freshly built dictionary: nothing explored, nothing visible. */
  ghost predicate Fresh(tiles: map<Cell, TileData>)
  {
    forall c :: c in tiles ==> !tiles[c].isExplored && !tiles[c].isVisible
  }

  /**
   * Over a run of turns starting from a fresh dictionary, a cell is visible
   * exactly when it is in the latest field of view, and it is explored
   * exactly when it was in an earlier one.
   */
  lemma {:induction false} FogHistory(tiles: map<Cell, TileData>, fovs: seq<seq<Cell>>)
    requires Fresh(tiles)
    ensures Turns(tiles, fovs).0.Keys == tiles.Keys
    ensures fovs != [] ==> Turns(tiles, fovs).1 == fovs[|fovs| - 1]
    ensures forall c :: c in tiles ==>
      (Turns(tiles, fovs).0[c].isVisible <==> fovs != [] && c in fovs[|fovs| - 1])
    ensures forall c :: c in tiles ==>
      (Turns(tiles, fovs).0[c].isExplored <==> exists k :: 0 <= k < |fovs| - 1 && c in fovs[k])
    decreases |fovs|
  {
    if fovs != [] {
      var init := fovs[..|fovs| - 1];
      FogHistory(tiles, init);
      var prev := Turns(tiles, init);
      var last := fovs[|fovs| - 1];
      forall c | c in tiles
        ensures Turns(tiles, fovs).0[c].isExplored <==> exists k :: 0 <= k < |fovs| - 1 && c in fovs[k]
      {
        var e := Turns(tiles, fovs).0[c].isExplored;
        assert e <==> prev.0[c].isExplored || c in prev.1;
        if e {
          if prev.0[c].isExplored {
            var k :| 0 <= k < |init| - 1 && c in init[k];
            assert c in fovs[k];
          } else {
            assert c in init[|init| - 1];
            assert c in fovs[|fovs| - 2];
          }
        } else {
          forall k | 0 <= k < |fovs| - 1 ensures c !in fovs[k] {
            assert fovs[k] == init[k];
            if k < |init| - 1 {
              assert c !in init[k];
            }
          }
        }
      }
    }
  }

  /** How `GenerateDungeon` ended. */
  datatype Generated =
    | ClearFailed   // `ClearFloor` dereferenced a null `Tiles`
    | NoRooms       // no room was accepted, so `rooms[0]` threw
    | Built(player: Cell)

  class MapManager {
    const floorMap: Tilemap
    const obstacleMap: Tilemap
    const fogMap: Tilemap
    /** The cells that are keys of `Nodes`; only ever cleared here. */
    var nodes: set<Cell>
    var visibleTiles: seq<Cell>
    var tiles: map<Cell, TileData>
    /** Whether the `Tiles` reference is still null. */
    var tilesNull: bool
    var width: int
    var height: int
    var roomMaxSize: int
    var roomMinSize: int
    var maxRooms: int
    var maxEnemies: int
    var maxItems: int
    var floor: int

    ghost predicate Valid()
      reads this
    {
      && floorMap != obstacleMap && floorMap != fogMap && obstacleMap != fogMap
      && (tilesNull ==> tiles == map[])
    }

    /** The inspector defaults of the map settings. */
    predicate Defaults()
      reads this
    {
      && width == 80 && height == 45 && roomMaxSize == 10 && roomMinSize == 6
      && maxRooms == 30 && maxEnemies == 2 && maxItems == 2 && floor == 0
    }

    /**
     * The component as written: `Tiles` has no initialiser and Unity does not
     * serialise dictionaries, so it starts out null.
     */
    constructor AsWritten(floorMap: Tilemap, obstacleMap: Tilemap, fogMap: Tilemap)
      requires floorMap != obstacleMap && floorMap != fogMap && obstacleMap != fogMap
      ensures Valid() && Defaults() && tilesNull
      ensures this.floorMap == floorMap && this.obstacleMap == obstacleMap && this.fogMap == fogMap
      ensures nodes == {} && visibleTiles == []
    {
      this.floorMap, this.obstacleMap, this.fogMap := floorMap, obstacleMap, fogMap;
      nodes, visibleTiles, tiles, tilesNull := {}, [], map[], true;
      width, height, roomMaxSize, roomMinSize := 80, 45, 10, 6;
      maxRooms, maxEnemies, maxItems, floor := 30, 2, 2, 0;
    }

    /** The component with `Tiles` initialised where it is declared, as `Nodes` is. */
    constructor (floorMap: Tilemap, obstacleMap: Tilemap, fogMap: Tilemap)
      requires floorMap != obstacleMap && floorMap != fogMap && obstacleMap != fogMap
      ensures Valid() && Defaults() && !tilesNull
      ensures this.floorMap == floorMap && this.obstacleMap == obstacleMap && this.fogMap == fogMap
      ensures nodes == {} && visibleTiles == [] && tiles == map[]
    {
      this.floorMap, this.obstacleMap, this.fogMap := floorMap, obstacleMap, fogMap;
      nodes, visibleTiles, tiles, tilesNull := {}, [], map[], false;
      width, height, roomMaxSize, roomMinSize := 80, 45, 10, 6;
      maxRooms, maxEnemies, maxItems, floor := 30, 2, 2, 0;
    }

    predicate InBounds(x: int, y: int)
      reads this
    {
      0 <= x < width && 0 <= y < height
    }

    /** `IsWalkable`, on the grid cell of the queried position. */
    predicate IsWalkable(position: Cell)
      reads this, obstacleMap
    {
      InBounds(position.x, position.y) && position !in obstacleMap.cells
    }

    /**
     * Only obstacles and the map edge block: an untiled cell inside the map
     * is walkable, and so is every in-bounds floor cell of a dungeon whose
     * floor and walls are disjoint.
     */
    lemma WalkableCases(c: Cell)
      ensures IsWalkable(c) <==> InBounds(c.x, c.y) && c !in obstacleMap.cells
      ensures floorMap.cells !! obstacleMap.cells && c in floorMap.cells && InBounds(c.x, c.y) ==> IsWalkable(c)
      ensures c in obstacleMap.cells ==> !IsWalkable(c)
      ensures !InBounds(c.x, c.y) ==> !IsWalkable(c)
      ensures InBounds(c.x, c.y) && c !in floorMap.cells && c !in obstacleMap.cells ==> IsWalkable(c)
    {
    }

    /**
     * Every tiled cell of `tilemap` is added to `Tiles`, neither explored
     * nor visible, named after the tilemap's tile. `Dictionary.Add` throws on
     * a key that is already present; `ok` is false then, and the cells added
     * before it stay.
     */
    method AddTileMapToDictionary(tilemap: Tilemap) returns (ok: bool)
      requires !tilesNull
      modifies this`tiles
      ensures ok <==> tilemap.cells !! old(tiles).Keys
      ensures ok ==> tiles == old(tiles) + map c | c in tilemap.cells :: TileData(tilemap.tileName, false, false)
      ensures !ok ==> old(tiles).Keys <= tiles.Keys <= old(tiles).Keys + tilemap.cells
      ensures forall c :: c in old(tiles) ==> tiles[c] == old(tiles)[c]
    {
      var todo := tilemap.cells;
      while todo != {}
        invariant todo <= tilemap.cells
        invariant (tilemap.cells - todo) !! old(tiles).Keys
        invariant tiles == old(tiles) + map c | c in tilemap.cells - todo :: TileData(tilemap.tileName, false, false)
        decreases |todo|
      {
        var pos :| pos in todo;
        if pos in tiles {
          return false;
        }
        tiles := tiles[pos := TileData(tilemap.tileName, false, false)];
        todo := todo - {pos};
      }
      return true;
    }

    /** Puts a fog tile on every key of `Tiles` that has none. */
    method SetupFogMap()
      requires Valid()
      modifies fogMap
      ensures fogMap.cells == old(fogMap.cells) + tiles.Keys
    {
      var todo := tiles.Keys;
      while todo != {}
        invariant todo <= tiles.Keys
        invariant fogMap.cells == old(fogMap.cells) + (tiles.Keys - todo)
        decreases |todo|
      {
        var pos :| pos in todo;
        if pos !in fogMap.cells {
          fogMap.cells := fogMap.cells + {pos};
        }
        todo := todo - {pos};
      }
    }

    /**
     * `UpdateFogMap(playerFOV)`. The indexer `Tiles[pos]` throws on a
     * missing key, so every cell of both lists must be a key.
     */
    method UpdateFogMap(playerFOV: seq<Cell>)
      requires forall c :: c in visibleTiles ==> c in tiles
      requires forall c :: c in playerFOV ==> c in tiles
      modifies this`tiles, this`visibleTiles
      ensures tiles == FogUpdate(old(tiles), old(visibleTiles), playerFOV)
      ensures visibleTiles == playerFOV
    {
      ghost var t0 := tiles;
      ghost var visible := visibleTiles;
      HidePrevious();
      ghost var t1 := tiles;
      ShowField(playerFOV);
      forall c | c in t0 ensures tiles[c] == FogUpdate(t0, visible, playerFOV)[c] {
      }
      assert tiles == FogUpdate(t0, visible, playerFOV);
    }

    /** `UpdateFogMap`'s first loop: the previously visible tiles become explored and hidden. */
    method HidePrevious()
      requires forall c :: c in visibleTiles ==> c in tiles
      modifies this`tiles
      ensures tiles.Keys == old(tiles).Keys
      ensures forall c :: c in old(tiles) ==>
        tiles[c] == if c in visibleTiles then old(tiles)[c].(isExplored := true, isVisible := false) else old(tiles)[c]
    {
      ghost var t0 := tiles;
      var i := 0;
      while i < |visibleTiles|
        invariant 0 <= i <= |visibleTiles|
        invariant tiles.Keys == t0.Keys
        invariant forall c :: c in t0 ==>
          tiles[c] == if c in visibleTiles[..i] then t0[c].(isExplored := true, isVisible := false) else t0[c]
      {
        var pos := visibleTiles[i];
        if !tiles[pos].isExplored {
          tiles := tiles[pos := tiles[pos].(isExplored := true)];
        }
        tiles := tiles[pos := tiles[pos].(isVisible := false)];
        assert visibleTiles[..i + 1] == visibleTiles[..i] + [pos];
        i := i + 1;
      }
      assert visibleTiles[..i] == visibleTiles;
    }

    /** `UpdateFogMap`'s second loop: the new field of view becomes visible and is recorded. */
    method ShowField(playerFOV: seq<Cell>)
      requires forall c :: c in playerFOV ==> c in tiles
      modifies this`tiles, this`visibleTiles
      ensures tiles.Keys == old(tiles).Keys
      ensures forall c :: c in old(tiles) ==>
        tiles[c] == if c in playerFOV then old(tiles)[c].(isVisible := true) else old(tiles)[c]
      ensures visibleTiles == playerFOV
    {
      ghost var t1 := tiles;
      visibleTiles := [];
      var j := 0;
      while j < |playerFOV|
        invariant 0 <= j <= |playerFOV|
        invariant tiles.Keys == t1.Keys
        invariant forall c :: c in t1 ==>
          tiles[c] == if c in playerFOV[..j] then t1[c].(isVisible := true) else t1[c]
        invariant visibleTiles == playerFOV[..j]
      {
        var pos := playerFOV[j];
        tiles := tiles[pos := tiles[pos].(isVisible := true)];
        visibleTiles := visibleTiles + [pos];
        assert playerFOV[..j + 1] == playerFOV[..j] + [pos];
        j := j + 1;
      }
      assert playerFOV[..j] == playerFOV;
    }

    /**
     * `ClearFloor`: empties the three tilemaps, `Nodes`, `Tiles` and
     * `VisibleTiles`, in that order; with a null `Tiles` it throws after
     * `Nodes` and `ok` is false.
     */
    method ClearFloor() returns (ok: bool)
      requires Valid()
      modifies this`nodes, this`tiles, this`visibleTiles, floorMap, obstacleMap, fogMap
      ensures Valid()
      ensures ok == !tilesNull
      ensures floorMap.cells == {} && obstacleMap.cells == {} && fogMap.cells == {} && nodes == {}
      ensures ok ==> tiles == map[] && visibleTiles == []
      ensures !ok ==> tiles == old(tiles) && visibleTiles == old(visibleTiles)
    {
      floorMap.ClearAllTiles();
      obstacleMap.ClearAllTiles();
      fogMap.ClearAllTiles();
      nodes := {};
      if tilesNull {
        return false;
      }
      tiles := map[];
      visibleTiles := [];
      return true;
    }

    /**
     * `GenerateDungeon`: clears the floor, runs the generator with the map
     * settings, then builds `Tiles` from the floor and obstacle tilemaps and
     * puts fog on every tile. `spawns` are the `GameManager.CreateActor`
     * requests the generator made.
     */
    method GenerateDungeon(overlaps: (Room, seq<Room>) -> bool, center: Room -> Cell, draws: seq<RoomDraw>)
      returns (outcome: Generated, spawns: seq<Spawn>)
      requires Valid()
      requires |draws| == Max0(maxRooms)
      requires forall k :: 0 <= k < |draws| ==> Shaped(draws[k])
      modifies this`nodes, this`tiles, this`tilesNull, this`visibleTiles, floorMap, obstacleMap, fogMap
      ensures Valid()
      ensures outcome == ClearFailed <==> old(tilesNull)
      ensures outcome != ClearFailed ==>
        var s := Run(overlaps, center, GenState(Tiles({}, {}), [], []), draws);
        && floorMap.cells == s.tiles.floor && obstacleMap.cells == s.tiles.walls
        && spawns == s.spawns
        && (outcome == NoRooms <==> s.rooms == [])
        && (outcome.Built? ==> outcome.player == center(s.rooms[0]))
      ensures outcome.Built? ==>
        && tiles == (map c | c in floorMap.cells :: TileData(floorMap.tileName, false, false))
                    + (map c | c in obstacleMap.cells :: TileData(obstacleMap.tileName, false, false))
        && floorMap.cells !! obstacleMap.cells
        && fogMap.cells == tiles.Keys && visibleTiles == []
    {
      spawns := [];
      var cleared := ClearFloor();
      if !cleared {
        return ClearFailed, spawns;
      }
      tiles, tilesNull := map[], false;
      visibleTiles := [];
      var player;
      player, spawns := RunGenerator(overlaps, center, draws);
      if player == None {
        return NoRooms, spawns;
      }
      BuildTiles();
      outcome := Built(player.value);
    }

    /** The generator part of `GenerateDungeon`, on cleared tilemaps. */
    method RunGenerator(overlaps: (Room, seq<Room>) -> bool, center: Room -> Cell, draws: seq<RoomDraw>)
      returns (player: Option<Cell>, spawns: seq<Spawn>)
      requires Valid()
      requires floorMap.cells == {} && obstacleMap.cells == {}
      requires |draws| == Max0(maxRooms)
      requires forall k :: 0 <= k < |draws| ==> Shaped(draws[k])
      modifies floorMap, obstacleMap
      ensures
        var s := Run(overlaps, center, GenState(Tiles({}, {}), [], []), draws);
        && floorMap.cells == s.tiles.floor && obstacleMap.cells == s.tiles.walls
        && spawns == s.spawns
        && player == (if s.rooms == [] then None else Some(center(s.rooms[0])))
      ensures floorMap.cells !! obstacleMap.cells
    {
      var generator := new DungeonGenerator(floorMap, obstacleMap);
      generator.SetSize(width, height);
      generator.SetRoomSize(roomMinSize, roomMaxSize);
      generator.SetMaxRooms(maxRooms);
      generator.SetMaxEnemies(maxEnemies);
      generator.SetMaxItems(maxItems);
      ghost var start := GenState(Tiles({}, {}), [], []);
      assert GenState(generator.Current(), generator.rooms, generator.spawns) == start;
      ghost var s := Run(overlaps, center, start, draws);
      player := generator.Generate(overlaps, center, draws);
      spawns := generator.spawns;
      assert GenState(generator.Current(), generator.rooms, generator.spawns) == s;
      RunDisjoint(overlaps, center, start, draws);
    }

    /** The part of `GenerateDungeon` after the generator: `Tiles` and the fog. */
    method BuildTiles()
      requires Valid() && !tilesNull && tiles == map[]
      requires floorMap.cells !! obstacleMap.cells
      modifies this`tiles, fogMap
      ensures tiles == (map c | c in floorMap.cells :: TileData(floorMap.tileName, false, false))
                     + (map c | c in obstacleMap.cells :: TileData(obstacleMap.tileName, false, false))
      ensures fogMap.cells == old(fogMap.cells) + tiles.Keys
    {
      var floorAdded := AddTileMapToDictionary(floorMap);
      var wallsAdded := AddTileMapToDictionary(obstacleMap);
      SetupFogMap();
    }

    /** `MoveUp`: one floor up, then a new dungeon. */
    method MoveUp(overlaps: (Room, seq<Room>) -> bool, center: Room -> Cell, draws: seq<RoomDraw>)
      returns (outcome: Generated, spawns: seq<Spawn>)
      requires Valid()
      requires |draws| == Max0(maxRooms)
      requires forall k :: 0 <= k < |draws| ==> Shaped(draws[k])
      modifies this`nodes, this`tiles, this`tilesNull, this`visibleTiles, this`floor, floorMap, obstacleMap, fogMap
      ensures Valid()
      ensures floor == if old(tilesNull) then old(floor) else old(floor) - 1
      ensures outcome == ClearFailed <==> old(tilesNull)
      ensures outcome != ClearFailed ==>
        var s := Run(overlaps, center, GenState(Tiles({}, {}), [], []), draws);
        && floorMap.cells == s.tiles.floor && obstacleMap.cells == s.tiles.walls
        && spawns == s.spawns
        && (outcome == NoRooms <==> s.rooms == [])
        && (outcome.Built? ==> outcome.player == center(s.rooms[0]))
    {
      var cleared := ClearFloor();
      if !cleared {
        return ClearFailed, [];
      }
      floor := floor - 1;
      outcome, spawns := GenerateDungeon(overlaps, center, draws);
    }

    /** `MoveDown`: one floor down, then a new dungeon. */
    method MoveDown(overlaps: (Room, seq<Room>) -> bool, center: Room -> Cell, draws: seq<RoomDraw>)
      returns (outcome: Generated, spawns: seq<Spawn>)
      requires Valid()
      requires |draws| == Max0(maxRooms)
      requires forall k :: 0 <= k < |draws| ==> Shaped(draws[k])
      modifies this`nodes, this`tiles, this`tilesNull, this`visibleTiles, this`floor, floorMap, obstacleMap, fogMap
      ensures Valid()
      ensures floor == if old(tilesNull) then old(floor) else old(floor) + 1
      ensures outcome == ClearFailed <==> old(tilesNull)
      ensures outcome != ClearFailed ==>
        var s := Run(overlaps, center, GenState(Tiles({}, {}), [], []), draws);
        && floorMap.cells == s.tiles.floor && obstacleMap.cells == s.tiles.walls
        && spawns == s.spawns
        && (outcome == NoRooms <==> s.rooms == [])
        && (outcome.Built? ==> outcome.player == center(s.rooms[0]))
    {
      var cleared := ClearFloor();
      if !cleared {
        return ClearFailed, [];
      }
      floor := floor + 1;
      outcome, spawns := GenerateDungeon(overlaps, center, draws);
    }
  }

  /**
   * With the map's default settings every candidate room lies inside the
   * map, so once generated every floor cell of a room is walkable.
   */
  lemma DefaultRoomsFit(d: RoomDraw)
    requires DrawOk(Config(80, 45, 6, 10, 30, 2, 2), d)
    ensures 6 <= d.width < 10 && 6 <= d.height < 10
    ensures forall c :: InRoom(Candidate(d), c) ==> 0 <= c.x < 80 && 0 <= c.y < 45
  {
    CandidateFits(Config(80, 45, 6, 10, 30, 2, 2), d);
  }
}
