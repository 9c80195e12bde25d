# A verified model of the roguelike's core

This project models the game logic of a small Unity roguelike in Dafny. It covers:

- **Dungeon generator** (`Map/DungeonGenerator.cs`). It places rooms by rejection, stamps each room onto the floor and obstacle tilemaps, and digs an L-shaped corridor to the previous room. It also requests enemies and items inside each room.
- **Map manager** (`Map/MapManager.cs`). It handles map bounds and walkability, and builds the tile dictionary from the two tilemaps. It keeps the fog-of-war ledger of explored and visible tiles, clears the floor, and counts floors.
- **Actors** (`Actors/Actor.cs`, `Actors/Enemy.cs`). This covers hit points, healing, damage, death, movement, the field of view and the enemy's turn.
- **Game manager** (`GameManager.cs`). These are the registries of the player, enemies, items, ladders and tombstones, with their lookups and the enemies' turn.
- **Player** (`Actors/Player.cs`). These are the input handlers and their three-flag inventory mode: open, dropping and using.
- **Inventory** (`Items/Inventory.cs`). A list of consumables with a capacity.
- **Inventory UI** (`Ui/InventoryUI.cs`). Eight labels and a wrapping cursor.
- **Message log** (`Ui/Messages.cs`). A five-line log, newest on top.

## Structure

| file | module | contents |
|---|---|---|
| `engine.dfy` | `Engine` | The engine and C# parts the scripts rely on: grid cells, colours, `Option`, the integer `Random.Range`, C#'s truncating `%` and a tilemap as a set of tiled cells |
| `collections.dfy` | `Collections` | `List.Remove`, which removes the first occurrence |
| `carving.dfy` | `Carving` | What carving means on sets of cells: floor and wall tiles, room stamping, straight segments, corridors |
| `dungeon.dfy` | `Dungeon` | The generator's random draws as data, the functions `Step` and `Run` that specify `Generate`, their properties, and the imperative `DungeonGenerator` class proved against them |
| `map_manager.dfy` | `Map` | The fog update as a function with its history lemma, and the `MapManager` class |
| `items.dfy` | `Items` | The `Consumable` and `Inventory` classes |
| `ui.dfy` | `Ui` | The cursor arithmetic, the `InventoryUI` class over two arrays of 8, the log's meaning and the `Messages` class over two arrays of 5 |
| `game.dfy` | `Game` | Hit-point arithmetic, `Actor`, `Enemy`, `Ladder`, `TombStone` and `GameManager` |
| `player.dfy` | `Players` | The `Player` class |

## Modelling choices

- **Unity components** are Dafny classes, and their mutable fields are class fields.
- **Object references** are references. A C# `null` is a nullable class type such as `Actor?`.
- **Game object positions** are integer grid cells. So `WorldToCell` and the `+ 0.5` offsets of instantiation drop out.
- **Random draws.** Every `Random.Range` and `Random.value` result `Generate` consumes is an argument, one `RoomDraw` per room slot. `DrawOk` states which values `Random.Range` can return. Each float comparison becomes a boolean.
- **Code this model does not contain** is passed in as function arguments:
  - `Room.Overlaps` and `Room.Center`: `Room.cs` is not part of this model.
  - The visibility algorithm, `AdamMilVisibility.Compute`.
  - A\*, as `AStar.Compute`.
  - The distance test of `GetNearbyEnemies`.
- **Exceptions.** Most C# exceptions the code can raise become outcome values:
  - A null `Tiles` dictionary in `ClearFloor` gives `Generated.ClearFailed`.
  - `rooms[0]` on an empty list gives `Generated.NoRooms`, or `None` from `Generate`.
  - `Dictionary.Add` on a present key makes `AddTileMapToDictionary` return `ok == false`.
  - A null target gives `AiOutcome.NullTarget`.
  - An out-of-range inventory index makes `OnSelect` return `ok == false`.
  - `GetComponent<Inventory>()` on a class that is not a component makes `OnDropAsWritten` and `OnUseAsWritten` return `ok == false`.
- **Exceptions excluded by preconditions.** Two exceptions are not modelled as outcomes; instead the callers must avoid them:
  - `Tiles[pos]` on a missing key throws `KeyNotFoundException` in `UpdateFogMap`, `HidePrevious` and `ShowField`. These methods require every cell of `VisibleTiles` and of the new field of view to be a key of `Tiles`. `Actor.UpdateFieldOfView` passes the same requirement on for the player.
  - `Tiles.Add` on a null `Tiles` in `AddTileMapToDictionary`. The method requires `Tiles` to be non-null; its only caller, `GenerateDungeon`, assigns a new dictionary first.
- **Component lookups.** `GetComponent<Actor>()` and `GetComponent<Enemy>()` are fixed references. An `Actor` holds its `Enemy` component as a constant, and the `Enemy` methods receive their own `Actor`.
- **Generator and map manager.** The generator writes to the map manager's floor and obstacle tilemaps, which it receives at construction. Its `GameManager.CreateActor` calls are recorded as a list of `Spawn` requests, which `GenerateDungeon` returns.
- **Fog of war.** A cell is marked explored when it leaves the field of view (`UpdateFogMap`'s first loop), not when it enters it. `Map.FogHistory` states the rule.
- **Behaviour kept as written:**
  - Items are created through `GameManager.CreateActor`, which appends every name other than "Player" to `Enemies`. This includes `HealthPotion`, `Fireball`, `ScrollOfConfusion` and the remains ("Dead").
  - `Enemy.Start` appends its actor once more, so an enemy created through `CreateActor` appears twice in `Enemies`.
  - `Ladder.Start` (`Map/Ladder.cs:18`) registers a ladder once more when its first frame starts. So the up ladder that `GameManager.Start` appends will appear twice in `Ladders`. The model states only `GameManager.Start`'s own append, because `Ladder.Start` is not modelled.
  - The player starts with `inventoryIsOpen` and `droppingItem` both true, as `Actors/Player.cs:10-12` initialises them.

## Model

| member | source | states |
|---|---|---|
| `Engine.RangeDraw` | Assets/Scripts/Map/DungeonGenerator.cs:46-50 | The values the integer `Random.Range(lo, hi)` can return: from `lo` up to but excluding `hi`, or `lo` itself when the bounds are equal; `Dungeon.DrawOk` requires it of every draw |
| `Engine.CsRem` | Assets/Scripts/Ui/InventoryUI.cs:96 | C#'s `%` on `int`: the remainder is smaller than the divisor in magnitude, takes the sign of the dividend, and differs from the dividend by a multiple of the divisor, which pins it down |
| `Engine.CsRemOfNatural` | Assets/Scripts/Ui/InventoryUI.cs:107 | On a non-negative dividend and a positive divisor, C#'s `%` equals the mathematical remainder, so the cursor arithmetic stays in range |
| `Engine.Tilemap.ClearAllTiles` | Assets/Scripts/Map/MapManager.cs:206-208 | No cell holds a tile afterwards |
| `Collections.IndexOf` | Assets/Scripts/GameManager.cs:45-52 | The first position holding the value, or the length when there is none: in range exactly when the value occurs, equal to it there, and different from it at every earlier position |
| `Collections.RemoveFirst` | Assets/Scripts/Items/Inventory.cs:37 | `List.Remove`: without the value the list is unchanged; otherwise exactly the first occurrence is cut out and the length drops by one |
| `Collections.RemoveFirstMultiset` | Assets/Scripts/Items/Inventory.cs:37 | Removing takes away one copy of the value and nothing else |
| `Collections.RemoveFirstKeepsOrder` | Assets/Scripts/GameManager.cs:207 | The element at position `i` after the removal is the one at `i` before it, or at `i + 1` once past the removed occurrence, so the remaining elements keep their order |
| `Carving.SetFloor` | Assets/Scripts/Map/DungeonGenerator.cs:112-121 | `SetFloorTile`: the cell becomes floor and loses any wall; disjoint tiles stay disjoint |
| `Carving.TryWall` | Assets/Scripts/Map/DungeonGenerator.cs:97-110 | `TrySetWallTile`: the floor never changes; a cell that is not floor becomes a wall; disjointness is kept |
| `Carving.RoomCellsMembership` | Assets/Scripts/Map/DungeonGenerator.cs:61-68 | The interior and border cell sets are exactly the cells the stamping loops treat as interior and as border |
| `Carving.Stamp` | Assets/Scripts/Map/DungeonGenerator.cs:61-81 | Reference definition of the stamping loops: the interior is added to the floor and leaves the walls; border cells that are not floor become walls. Its properties are `Carving.StampCarves` |
| `Carving.StampCarves` | Assets/Scripts/Map/DungeonGenerator.cs:61-81 | After stamping a room, every interior cell is floor and every border cell is floor or wall. A border cell that was not floor becomes a wall. No floor or tile is lost, disjointness is kept, and cells outside the room are untouched |
| `Carving.Segment` | Assets/Scripts/Map/DungeonGenerator.cs:190-191 | The cells of a horizontal or vertical line in order: both ends included, one unit step apart, one more cell than the distance, and containing exactly the cells between the ends |
| `Carving.Corner` | Assets/Scripts/Map/DungeonGenerator.cs:177-186 | The corner is aligned with both centres |
| `Carving.TunnelIsWalk` | Assets/Scripts/Map/DungeonGenerator.cs:177-191 | The tunnel's coordinate list runs from the old centre to the new one through the corner, with steps of at most one cell, and is two cells longer than the Manhattan distance |
| `Carving.Block` | Assets/Scripts/Map/DungeonGenerator.cs:198-207 | The cells the two inner loops visit are exactly the cells at most one step away in each axis |
| `Carving.TunnelStep` | Assets/Scripts/Map/DungeonGenerator.cs:196-207 | Reference definition of one coordinate's iteration: the cell becomes floor, then every non-floor cell of its 3x3 block becomes a wall |
| `Carving.Tunnel` | Assets/Scripts/Map/DungeonGenerator.cs:194-208 | Reference definition of the coordinate loop: `TunnelStep` over the coordinates in order. Its properties are `Carving.TunnelClosedForm`, `Carving.TunnelCarves` and `Carving.TunnelKeepsFloor` |
| `Carving.TunnelSnoc` | Assets/Scripts/Map/DungeonGenerator.cs:194-208 | Tunnelling one more coordinate is one more loop iteration |
| `Carving.AroundCovers` | Assets/Scripts/Map/DungeonGenerator.cs:194-208 | The neighbourhood of every coordinate is inside the area a tunnel can touch |
| `Carving.TunnelClosedForm` | Assets/Scripts/Map/DungeonGenerator.cs:194-208 | On disjoint tiles, a tunnel adds its coordinates to the floor, and the walls become the old walls plus every cell around a coordinate, minus the new floor |
| `Carving.TunnelCarves` | Assets/Scripts/Map/DungeonGenerator.cs:171-209 | After a corridor, every coordinate is floor and each of its eight neighbours is floor or wall. Floor only grows, the tiles stay disjoint, and cells away from the corridor are untouched |
| `Carving.TunnelKeepsFloor` | Assets/Scripts/Map/DungeonGenerator.cs:194-208 | A corridor never removes a floor tile or untiles a cell, whatever the tiles were |
| `Dungeon.Candidate` | Assets/Scripts/Map/DungeonGenerator.cs:46-52 | Reference definition of the candidate room built from one slot's draws. Its bounds are `Dungeon.CandidateFits` |
| `Dungeon.Step` | Assets/Scripts/Map/DungeonGenerator.cs:46-92 | Reference definition of one loop iteration: an overlapping candidate is skipped; otherwise it is carved, its spawns are requested and it is appended. Its properties are `Dungeon.RejectedChangesNothing`, `Dungeon.AcceptedStep`, `Dungeon.StepKeepsFloor` and `Dungeon.StepCarved` |
| `Dungeon.Carve` | Assets/Scripts/Map/DungeonGenerator.cs:60-90 | Reference definition of the tile changes of an accepted room: `Stamp`, then `Tunnel` from the last accepted room's centre when there is one. Its properties are `Dungeon.AcceptedCarved` |
| `Dungeon.Run` | Assets/Scripts/Map/DungeonGenerator.cs:44-93 | Reference definition of the whole loop: `Step` over the slots in order. Its properties are `Dungeon.RunRooms`, `Dungeon.RunNoOverlap`, `Dungeon.RunKeepsFloor`, `Dungeon.RunDisjoint` and `Dungeon.RunCarved` |
| `Dungeon.EnemySpawns` | Assets/Scripts/Map/DungeonGenerator.cs:127-142 | One "Kip" or "Wesp" request per draw, at the drawn cell, in draw order |
| `Dungeon.ItemSpawns` | Assets/Scripts/Map/DungeonGenerator.cs:150-169 | One "HealthPotion", "Fireball" or "ScrollOfConfusion" request per draw, chosen by the two separate comparisons, in draw order |
| `Dungeon.RejectedChangesNothing` | Assets/Scripts/Map/DungeonGenerator.cs:55-58 | An overlapping candidate changes no tile, spawns nothing and is not added |
| `Dungeon.AcceptedStep` | Assets/Scripts/Map/DungeonGenerator.cs:60-92 | An accepted candidate is appended to `rooms` and its enemy requests, then item requests, are appended. It is stamped, and a corridor is dug from the last accepted room exactly when there is one |
| `Dungeon.RunRooms` | Assets/Scripts/Map/DungeonGenerator.cs:44-93 | `rooms` grows by at most one room per slot and earlier rooms never change |
| `Dungeon.RunNoOverlap` | Assets/Scripts/Map/DungeonGenerator.cs:54-58 | Every accepted room passed the overlap test against exactly the rooms accepted before it |
| `Dungeon.StepKeepsFloor` | Assets/Scripts/Map/DungeonGenerator.cs:60-90 | One room slot never removes floor or untiles a cell |
| `Dungeon.RunKeepsFloor` | Assets/Scripts/Map/DungeonGenerator.cs:44-93 | Floor wins: once a cell is floor during generation it never becomes anything else, and a tiled cell stays tiled |
| `Dungeon.RunDisjoint` | Assets/Scripts/Map/DungeonGenerator.cs:44-93 | No cell is ever both floor and wall |
| `Dungeon.StepCarved` | Assets/Scripts/Map/DungeonGenerator.cs:60-92 | One slot keeps the dungeon carved, with the new room carved and linked to the previous one |
| `Dungeon.AcceptedCarved` | Assets/Scripts/Map/DungeonGenerator.cs:60-92 | Stamping and tunnelling an accepted room keeps every earlier room carved and linked, carves the new room, links it to the previous one, and keeps the tiles disjoint |
| `Dungeon.RunCarved` | Assets/Scripts/Map/DungeonGenerator.cs:44-93 | Connectivity: every accepted room ends up carved, with floor interior and floor-or-wall border. Each room after the first is joined to the one before it by a floor corridor between their centres, so all room centres are linked by floor |
| `Dungeon.CandidateFits` | Assets/Scripts/Map/DungeonGenerator.cs:46-52 | Room sizes lie in [min, max) and every cell of a candidate lies inside the map, two cells short of the far edges |
| `Dungeon.SingleRoomScenario` | Assets/Scripts/Map/DungeonGenerator.cs:40-95 | With one slot and room size 6 on an 80 by 45 map, the only room is 6 by 6 and inside the map, and it is stamped with no corridor |
| `Dungeon.SlotSpawns` | Assets/Scripts/Map/DungeonGenerator.cs:122-170 | With non-negative bounds, a room gets at most `maxEnemies` enemies and `maxItems` items. A room of at least 3 by 3 gets them all strictly inside its wall border |
| `Dungeon.SlotNames` | Assets/Scripts/Map/DungeonGenerator.cs:134-168 | Enemies are Kip or Wesp; items are one of the three consumables |
| `Dungeon.SpawnNames` | Assets/Scripts/Map/DungeonGenerator.cs:83-84 | No spawn request `Generate` makes uses the name "Player" |
| `Dungeon.DungeonGenerator.constructor` | Assets/Scripts/Map/DungeonGenerator.cs:7-12 | All settings are 0 and the room list and spawn log are empty |
| `Dungeon.DungeonGenerator.SetSize` | Assets/Scripts/Map/DungeonGenerator.cs:14-18 | Width and height are set; the other settings are unchanged |
| `Dungeon.DungeonGenerator.SetRoomSize` | Assets/Scripts/Map/DungeonGenerator.cs:20-24 | Minimum and maximum room sizes are set; the other settings are unchanged |
| `Dungeon.DungeonGenerator.SetMaxRooms` | Assets/Scripts/Map/DungeonGenerator.cs:26-29 | The room count is set; the other settings are unchanged |
| `Dungeon.DungeonGenerator.SetMaxEnemies` | Assets/Scripts/Map/DungeonGenerator.cs:30-33 | The enemy bound is set; the other settings are unchanged |
| `Dungeon.DungeonGenerator.SetMaxItems` | Assets/Scripts/Map/DungeonGenerator.cs:35-38 | The item bound is set; the other settings are unchanged |
| `Dungeon.DungeonGenerator.TrySetWallTile` | Assets/Scripts/Map/DungeonGenerator.cs:97-110 | The tilemaps change as `TryWall` says; the result is true exactly when the cell was not floor |
| `Dungeon.DungeonGenerator.SetFloorTile` | Assets/Scripts/Map/DungeonGenerator.cs:112-121 | The tilemaps change as `SetFloor` says |
| `Dungeon.DungeonGenerator.StampRoom` | Assets/Scripts/Map/DungeonGenerator.cs:61-81 | The nested loops leave the tilemaps as `Stamp` says |
| `Dungeon.DungeonGenerator.PlaceEnemies` | Assets/Scripts/Map/DungeonGenerator.cs:122-143 | The loop appends exactly `EnemySpawns` of the draws to the spawn log |
| `Dungeon.DungeonGenerator.PlaceItems` | Assets/Scripts/Map/DungeonGenerator.cs:145-170 | The loop appends exactly `ItemSpawns` of the draws to the spawn log |
| `Dungeon.DungeonGenerator.WallAround` | Assets/Scripts/Map/DungeonGenerator.cs:198-207 | Every non-floor cell of the 3x3 block becomes a wall; the floor is unchanged |
| `Dungeon.DungeonGenerator.TunnelBetween` | Assets/Scripts/Map/DungeonGenerator.cs:171-209 | The tilemaps change as `Tunnel` over the two legs through the chosen corner says |
| `Dungeon.DungeonGenerator.CarveAll` | Assets/Scripts/Map/DungeonGenerator.cs:194-208 | The coordinate loop leaves the tilemaps as `Tunnel` says |
| `Dungeon.DungeonGenerator.CarveCell` | Assets/Scripts/Map/DungeonGenerator.cs:196-207 | One iteration is one `TunnelStep` |
| `Dungeon.DungeonGenerator.PlaceRoom` | Assets/Scripts/Map/DungeonGenerator.cs:46-92 | One slot of the loop changes the tiles, rooms and spawn log as `Step` says |
| `Dungeon.DungeonGenerator.PlaceSpawns` | Assets/Scripts/Map/DungeonGenerator.cs:83-84 | Enemy requests, then item requests, are appended |
| `Dungeon.DungeonGenerator.AcceptRoom` | Assets/Scripts/Map/DungeonGenerator.cs:60-92 | The room is stamped, tunnelled to the last accepted room if there is one, and appended; its spawns are logged |
| `Dungeon.DungeonGenerator.Generate` | Assets/Scripts/Map/DungeonGenerator.cs:40-95 | The tiles, rooms and spawn log end as `Run` from a cleared room list says. The player goes to the centre of the first accepted room, or there is none when no room was accepted |
| `Map.FogUpdate` | Assets/Scripts/Map/MapManager.cs:180-201 | The keys and names stay. A tile is explored exactly when it already was or is in the old `VisibleTiles` list. It is visible exactly when it is in the new field of view, or was visible and not in the old list. Other tiles are untouched |
| `Map.FogHistory` | Assets/Scripts/Map/MapManager.cs:180-201 | From a fresh dictionary, over any sequence of turns, a tile is visible exactly when it is in the latest field of view, and explored exactly when it was in an earlier one. So explored never reverts |
| `Map.MapManager.AsWritten` | Assets/Scripts/Map/MapManager.cs:37-49 | The component as declared: the inspector defaults, empty `Nodes` and `VisibleTiles`, and a null `Tiles` |
| `Map.MapManager.constructor` | Assets/Scripts/Map/MapManager.cs:37-49 | The same with `Tiles` initialised to an empty dictionary |
| `Map.MapManager.InBounds` | Assets/Scripts/Map/MapManager.cs:125 | Reference definition: the cell lies in the `width` by `height` grid from the origin |
| `Map.MapManager.IsWalkable` | Assets/Scripts/Map/MapManager.cs:128-136 | Reference definition: in bounds and without an obstacle tile. Its properties are `Map.MapManager.WalkableCases` |
| `Map.MapManager.WalkableCases` | Assets/Scripts/Map/MapManager.cs:125-136 | A cell is walkable exactly when it is in bounds and has no obstacle: an obstacle or the map edge blocks, an untiled in-bounds cell is walkable, and so is every in-bounds floor cell when floor and walls are disjoint, as `GenerateDungeon` leaves them |
| `Map.MapManager.AddTileMapToDictionary` | Assets/Scripts/Map/MapManager.cs:139-155 | Succeeds exactly when no tiled cell is already a key. On success every tiled cell is added, with the tile's name, unexplored and invisible. Entries already present never change |
| `Map.MapManager.SetupFogMap` | Assets/Scripts/Map/MapManager.cs:158-166 | Every key of `Tiles` gets a fog tile; nothing else is fogged |
| `Map.MapManager.UpdateFogMap` | Assets/Scripts/Map/MapManager.cs:180-201 | `Tiles` changes as `FogUpdate` says, and `VisibleTiles` becomes the new field of view |
| `Map.MapManager.HidePrevious` | Assets/Scripts/Map/MapManager.cs:182-191 | Each previously visible tile becomes explored and invisible; the keys stay |
| `Map.MapManager.ShowField` | Assets/Scripts/Map/MapManager.cs:193-200 | Each tile in the field of view becomes visible, and the list records the field in order |
| `Map.MapManager.ClearFloor` | Assets/Scripts/Map/MapManager.cs:204-212 | The three tilemaps and `Nodes` are emptied. With a non-null `Tiles`, `Tiles` and `VisibleTiles` are emptied too; with a null one the call fails and they stay |
| `Map.MapManager.GenerateDungeon` | Assets/Scripts/Map/MapManager.cs:57-82 | It fails exactly when `Tiles` was null. Otherwise the tilemaps and spawns are those of `Run` with the map's settings, and the outcome says whether a room was placed and where the player goes. `Tiles` then holds every floor and wall cell, fresh and disjoint, every key is fogged and nothing is visible |
| `Map.MapManager.RunGenerator` | Assets/Scripts/Map/MapManager.cs:67-74 | The generator configured with the map's settings leaves `Run`'s tiles and spawns, and floor and walls disjoint |
| `Map.MapManager.BuildTiles` | Assets/Scripts/Map/MapManager.cs:77-81 | `Tiles` is exactly the floor cells and the obstacle cells, named by their tilemaps, fresh; the fog covers them |
| `Map.MapManager.MoveUp` | Assets/Scripts/Map/MapManager.cs:85-98 | The floor number drops by one unless the first clear fails; otherwise the new dungeon is `Run` with the map's settings, as for `GenerateDungeon` |
| `Map.MapManager.MoveDown` | Assets/Scripts/Map/MapManager.cs:101-114 | The floor number rises by one unless the first clear fails; otherwise the new dungeon is `Run` with the map's settings, as for `GenerateDungeon` |
| `Map.DefaultRoomsFit` | Assets/Scripts/Map/MapManager.cs:42-46 | With the default settings, rooms are 6 to 9 cells wide and high and lie inside the 80 by 45 map |
| `Items.Inventory.constructor` | Assets/Scripts/Items/Inventory.cs:17-20 | An empty inventory with the given capacity |
| `Items.Inventory.AddItem` | Assets/Scripts/Items/Inventory.cs:23-32 | Adds at the end exactly when there is room, and says so; the capacity bound is kept |
| `Items.Inventory.DropItem` | Assets/Scripts/Items/Inventory.cs:35-38 | Removes the first occurrence: one copy gone and nothing else; the bound is kept |
| `Ui.NextSelection` | Assets/Scripts/Ui/InventoryUI.cs:90-98 | With no items the cursor stays. Otherwise an in-range cursor moves one down and wraps from the last item to the first |
| `Ui.PreviousSelection` | Assets/Scripts/Ui/InventoryUI.cs:101-109 | With no items the cursor stays. Otherwise an in-range cursor moves one up and wraps from the first item to the last |
| `Ui.NextPreviousInverse` | Assets/Scripts/Ui/InventoryUI.cs:90-109 | The two moves undo each other |
| `Ui.AdvanceVisitsAll` | Assets/Scripts/Ui/InventoryUI.cs:90-98 | From the top, repeated "next" visits every item in order and returns to the top after `numItems` moves |
| `Ui.CursorStuckWithoutCount` | Assets/Scripts/Ui/InventoryUI.cs:114-116 | With the count left at 0, no number of "next" moves leaves the top |
| `Ui.LabelsFor` | Assets/Scripts/Ui/InventoryUI.cs:119-125 | Label `i` shows the name of item `i` when there is a non-null one, and is empty otherwise |
| `Ui.Highlight` | Assets/Scripts/Ui/InventoryUI.cs:76-86 | Exactly the selected label is highlighted |
| `Ui.InventoryUI.constructor` | Assets/Scripts/Ui/InventoryUI.cs:44-57 | The labels are cleared, nothing is highlighted, and the list is hidden |
| `Ui.InventoryUI.Clear` | Assets/Scripts/Ui/InventoryUI.cs:60-70 | All labels are empty and none is highlighted; cursor and count are 0 |
| `Ui.InventoryUI.UpdateSelected` | Assets/Scripts/Ui/InventoryUI.cs:73-87 | Only the label at the cursor is highlighted |
| `Ui.InventoryUI.SelectNextItem` | Assets/Scripts/Ui/InventoryUI.cs:90-98 | The cursor moves as `NextSelection` says; the highlight follows unless there are no items |
| `Ui.InventoryUI.SelectPreviousItem` | Assets/Scripts/Ui/InventoryUI.cs:101-109 | The cursor moves as `PreviousSelection` says; the highlight follows unless there are no items |
| `Ui.InventoryUI.WriteLabels` | Assets/Scripts/Ui/InventoryUI.cs:119-125 | On cleared labels, the loop writes exactly `LabelsFor(list)` |
| `Ui.InventoryUI.ShowAsWritten` | Assets/Scripts/Ui/InventoryUI.cs:112-128 | As written: the names are shown, the top label is highlighted, and the list is displayed, but the count is 0 |
| `Ui.InventoryUI.Show` | Assets/Scripts/Ui/InventoryUI.cs:112-128 | Corrected: the same, with the count equal to the list length |
| `Ui.InventoryUI.Hide` | Assets/Scripts/Ui/InventoryUI.cs:131-134 | The list is hidden |
| `Ui.Pushed` | Assets/Scripts/Ui/Messages.cs:43-48 | The new message is on the top line, the others move one line down, and the bottom one is lost |
| `Ui.BoardShowsLatest` | Assets/Scripts/Ui/Messages.cs:26-48 | After clearing and adding messages, line `i` shows the `i`-th most recent message, or nothing |
| `Ui.Messages.constructor` | Assets/Scripts/Ui/Messages.cs:12-24 | The log shows only the welcome message, in magenta |
| `Ui.Messages.Clear` | Assets/Scripts/Ui/Messages.cs:26-32 | Every line is blank |
| `Ui.Messages.MoveUp` | Assets/Scripts/Ui/Messages.cs:34-41 | Every line except the top takes the text and colour of the line above it; the top keeps its own |
| `Ui.Messages.AddMessage` | Assets/Scripts/Ui/Messages.cs:43-48 | Texts and colours are pushed as `Pushed` says |
| `Game.Healed` | Assets/Scripts/Actors/Actor.cs:47-55 | The smaller of hit points plus the amount and the maximum |
| `Game.Damaged` | Assets/Scripts/Actors/Actor.cs:91-97 | The larger of hit points minus the amount and 0 |
| `Game.HitPointsStayInRange` | Assets/Scripts/Actors/Actor.cs:45-97 | For a non-negative amount, healing keeps hit points within [current, maximum] and heals at most the amount. Damage keeps them within [0, current] |
| `Game.Actor.constructor` | Assets/Scripts/Actors/Actor.cs:11-20 | 30 of 30 hit points, a view range of 8 and an empty field of view |
| `Game.Actor.Heal` | Assets/Scripts/Actors/Actor.cs:45-64 | Hit points become `Healed`, and the amount returned is the actual gain |
| `Game.Actor.Die` | Assets/Scripts/Actors/Actor.cs:67-86 | A dying enemy leaves `Enemies`; either way the remains are appended through `CreateActor`; the player reference stays |
| `Game.Actor.DoDamage` | Assets/Scripts/Actors/Actor.cs:89-110 | Hit points become `Damaged`, and the actor dies exactly when that leaves 0. `Enemies` changes only on death, as `Die` says |
| `Game.Actor.Move` | Assets/Scripts/Actors/Actor.cs:113-120 | The actor steps by the direction exactly when the target cell is walkable, and stays otherwise |
| `Game.Actor.UpdateFieldOfView` | Assets/Scripts/Actors/Actor.cs:123-139 | The field of view becomes the computed one. For the player the fog is updated with it; for others the map is untouched |
| `Game.Enemy.constructor` | Assets/Scripts/Actors/Enemy.cs:7-9 | No target and not fighting |
| `Game.Enemy.Start` | Assets/Scripts/Actors/Enemy.cs:11-15 | The enemy's actor is appended to `Enemies` |
| `Game.Enemy.MoveAlongPath` | Assets/Scripts/Actors/Enemy.cs:17-22 | The direction is A\*'s step from the enemy's cell to the target cell |
| `Game.Enemy.RunAI` | Assets/Scripts/Actors/Enemy.cs:24-49 | A missing target defaults to the player, and the turn fails exactly when there still is none. Otherwise the enemy chases exactly when it was fighting or sees the target, along A\*'s step, and fights from then on |
| `Game.Nearby` | Assets/Scripts/GameManager.cs:220-234 | Only listed actors that are near, at most as many as listed |
| `Game.NearbyComplete` | Assets/Scripts/GameManager.cs:225-231 | Every listed non-null actor that is near is included |
| `Game.PresentMembers` | Assets/Scripts/GameManager.cs:190-199 | The enemy components whose AI runs are exactly the non-null ones |
| `Game.GameManager.constructor` | Assets/Scripts/GameManager.cs:9-17 | No player and empty registries |
| `Game.GameManager.GetActorAtLocation` | Assets/Scripts/GameManager.cs:36-53 | The player if it is there, otherwise the first non-null enemy there, otherwise null |
| `Game.GameManager.GetItemAtLocation` | Assets/Scripts/GameManager.cs:56-66 | The first non-null item there, or null |
| `Game.GameManager.GetLadderAtLocation` | Assets/Scripts/GameManager.cs:69-79 | The first non-null ladder there, or null |
| `Game.GameManager.CreateActor` | Assets/Scripts/GameManager.cs:82-98 | "Player" becomes the player; any other name is appended to `Enemies` |
| `Game.GameManager.CreateItem` | Assets/Scripts/GameManager.cs:101-107 | The item is appended to `Items` |
| `Game.GameManager.AddEnemy` | Assets/Scripts/GameManager.cs:110-113 | Appended to `Enemies` |
| `Game.GameManager.AddItem` | Assets/Scripts/GameManager.cs:116-119 | Appended to `Items` |
| `Game.GameManager.AddLadder` | Assets/Scripts/GameManager.cs:122-125 | Appended to `Ladders` |
| `Game.GameManager.AddTombStone` | Assets/Scripts/GameManager.cs:128-131 | Appended to `TombStones` |
| `Game.GameManager.ClearFloor` | Assets/Scripts/GameManager.cs:134-164 | The four registries are empty, so a second call changes nothing |
| `Game.GameManager.Start` | Assets/Scripts/GameManager.cs:167-184 | The player is set, and one new ladder going up at the origin is appended |
| `Game.GameManager.RunComponent` | Assets/Scripts/GameManager.cs:192-199 | One entry's AI runs when it has an enemy component, and fails only when neither it nor the player has a target |
| `Game.GameManager.StartEnemyTurn` | Assets/Scripts/GameManager.cs:187-201 | The AIs run in list order over the non-null entries that have an enemy component. All of them run unless a target is null, which stops the turn and happens only without a player |
| `Game.GameManager.GetNearbyEnemies` | Assets/Scripts/GameManager.cs:220-234 | Exactly `Nearby` of `Enemies`, in list order |
| `Game.GameManager.RemoveEnemy` | Assets/Scripts/GameManager.cs:204-209 | `List.Remove` on `Enemies` |
| `Game.GameManager.RemoveItem` | Assets/Scripts/GameManager.cs:212-217 | `List.Remove` on `Items` |
| `Players.Player.constructor` | Assets/Scripts/Actors/Player.cs:9-12 | The inventory starts open in dropping mode, not using |
| `Players.Player.Start` | Assets/Scripts/Actors/Player.cs:20-29 | The game manager's player is this actor |
| `Players.Player.OnMovement` | Assets/Scripts/Actors/Player.cs:43-71 | With the inventory open, up moves the cursor to the previous item, down to the next, and a horizontal key does nothing. With it closed, a move is requested. Only a cursor move touches the list |
| `Players.Player.OnExit` | Assets/Scripts/Actors/Player.cs:75-96 | An open inventory is hidden and all three flags are cleared; otherwise nothing changes |
| `Players.Player.OnGrab` | Assets/Scripts/Actors/Player.cs:109-140 | The first item on the player's cell goes into the inventory and leaves `Items`, unless there is none or the inventory is full; the capacity bound is kept. Only the grabbed item changes: it is deactivated, keeps its cell, and every other item keeps its cell and its active flag |
| `Players.Player.PickUp` | Assets/Scripts/Actors/Player.cs:123-133 | With room, the item is added, deactivated and removed from `Items`; otherwise nothing changes, the item's active flag included |
| `Players.Player.OnDropAsWritten` | Assets/Scripts/Actors/Player.cs:146-158 | As written: `GetComponent<Inventory>()` throws, so a closed inventory never opens and the handler fails with nothing changed; an open one is left alone |
| `Players.Player.OnDrop` | Assets/Scripts/Actors/Player.cs:146-158 | Corrected: a closed inventory opens in dropping mode with the player's items shown, counted and the cursor at the top; an open one is left alone; the mode invariant is kept |
| `Players.Player.OnUseAsWritten` | Assets/Scripts/Actors/Player.cs:165-181 | As written: the same throwing lookup, so a closed inventory never opens and the handler fails with nothing changed; an open one is left alone |
| `Players.Player.OnUse` | Assets/Scripts/Actors/Player.cs:165-181 | Corrected: a closed inventory opens in using mode with the player's items shown, counted and the cursor at the top; an open one is left alone; the mode invariant is kept |
| `Players.Player.PutDown` | Assets/Scripts/Actors/Player.cs:209-215 | The item is on the player's cell, active and appended to `Items` |
| `Players.Player.OnSelect` | Assets/Scripts/Actors/Player.cs:191-236 | On an open inventory with the cursor in range, the selected item leaves the inventory, and when dropping it is put back on the map at the player's cell; when using, it keeps its cell and active flag. The list is hidden and all flags cleared. A cursor out of range fails with nothing changed. No other item can change: only the selected one is in the frame |

## Left out

- `Room.Overlaps` and `Room.Center`: `Room.cs` is not part of this model. They are arguments, so `Dungeon.RunNoOverlap` is stated relative to whatever overlap test the room defines.
- `BresenhamLine.Compute`: `BresenhamLine.cs` is not part of this model. `Carving.Segment` stands for it only on horizontal and vertical lines, the only lines `TunnelBetween` passes to it. Diagonal rasterization is not modelled.
- `AdamMilVisibility.Compute` and `AStar.Compute` are not part of this model. They are the function arguments `compute` and `path`, so nothing is proved about visibility or paths themselves.
- `Action.Move` is not part of this model. `Enemy.MoveAlongPath` returns the A\* step, and `Player.OnMovement` returns `MoveRequested(direction)`. `Actor.Move` is the walkability-guarded step such a move ends in.
- `Random.Range` and `Random.value` are draw arguments. Floating-point thresholds (`< 0.5f`, `< 0.33f`, `< 0.66f`) are booleans, and the distribution of the draws is not modelled.
- `Vector3.Distance(...) < 5` in `GetNearbyEnemies` is the predicate argument `near`, because it is floating point.
- `Mathf.Round` of the movement direction is left out. The direction is already an integer cell.
- `Destroy` of game objects is left out. The consequences for game state are named in the `Players.Player.OnSelect` and `Game.GameManager.StartEnemyTurn` lines below.
- Engine interaction that does not bear on game state is left out:
  - `Instantiate` and `Resources.Load`;
  - the camera;
  - `Debug.Log`;
  - fog colours (`SetColor`, `SetTileFlags`);
  - label colours other than the selection highlight;
  - `DisplayStyle`, which is modelled as the flag `shown`.
- `gameObject.SetActive` is modelled as the consumable's `active` flag.
- `context.performed` is left out: each input handler is modelled for a performed action.
- `Awake`, the singleton getters, `OnEnable` and `OnDisable`: singletons are passed as references.
- `MapManager.CreateActor` (`Map/MapManager.cs:117-122`) only instantiates, so it is left out. `Generate`'s player request is its result `player`. `GameManager.CreateActor` takes the instantiated object's `Actor` component as an argument.
- `generator.SetCurrentFloor(floor)` (`Map/MapManager.cs:73`) is not defined in `Map/DungeonGenerator.cs`, so it is left out.
- `UpdateFloorText`, `UIManager`, `HealthBar` and `FloorInfo` are not part of this model. The health-bar updates and the `AddMessage` calls in `Heal`, `Die` and `DoDamage` are left out. The message log itself is modelled in `Ui.Messages`.
- `Player.UseItem` only logs, so it is left out. The used item's game object is destroyed, which is not modelled either.
- The player's `inventory` field (`Actors/Player.cs:9`) is of a plain class that Unity does not serialise, and no script assigns it, so as written `OnGrab` (once an item is found) and `OnSelect` (on an open inventory) dereference null. The model gives the player an inventory at construction; the null case of those two handlers is not modelled.
- `Players.Player.OnDrop`: uses the corrected `Ui.InventoryUI.Show` and the player's own inventory (Findings rows 1 and 3), so `ui.numItems == |inventory.items|` holds where the code as written throws first and, without the throw, would leave the count at 0.
- `Players.Player.OnUse`: uses the corrected `Ui.InventoryUI.Show` and the player's own inventory (Findings rows 1 and 3), so `ui.numItems == |inventory.items|` holds where the code as written throws first and, without the throw, would leave the count at 0.
- `Engine.RangeDraw`: for bounds given the wrong way round it allows `hi <= v < lo`, taking Unity's swap of the bounds at its word. The lemmas do not lean on that case: `Dungeon.CandidateFits` and the interior claim of `Dungeon.SlotSpawns` hold where the bounds are in order.
- `Consumable.cs`, `Ladder.cs` and `TombStone.cs`: only the fields the core reads are modelled, not their own `Start` registration.
- `Nodes` (the pathfinding graph) is modelled only as its key set, which `ClearFloor` empties.
- Iteration order of a tilemap's `cellBounds` and of `Tiles.Keys` is not modelled. Tilemaps are sets.
- `Map.MapManager.AddTileMapToDictionary`: on failure it bounds the keys added instead of naming them, because the order in which cells are visited is not modelled.
- `Map.MapManager.MoveUp`: states the tilemaps, spawns and outcome of the new dungeon, but not the rebuilt `Tiles`, which `GenerateDungeon` states.
- `Map.MapManager.MoveDown`: states the tilemaps, spawns and outcome of the new dungeon, but not the rebuilt `Tiles`, which `GenerateDungeon` states.
- `Game.GameManager.StartEnemyTurn`: states which AIs run, in which order and when the turn stops. The effect of each AI is `Game.Enemy.RunAI`'s contract, not restated for the whole turn.
- `Game.Healed`: Hit points are unbounded integers, so 32-bit overflow of `hitPoints += hp` with huge amounts is not modelled.
- `Game.Damaged`: Hit points are unbounded integers, so 32-bit overflow of `hitPoints -= hp` with huge amounts is not modelled.
- A destroyed Unity object comparing equal to `null` is not modelled; a reference stays non-null once set.
- `Players.Player.OnSelect`: the model puts a dropped item back on the map, active. As written, `OnGrab` hands the grabbed item to `RemoveItem` (`Actors/Player.cs:126-129`), which destroys its game object (`GameManager.cs:216`). When that item is later dropped, `selectedItem.transform` (`Actors/Player.cs:209`) throws `MissingReferenceException`. By then `DropItem` (`Actors/Player.cs:204`) has already taken the item out of the inventory. So the item is lost, the list stays shown and the flags stay set. The model does not capture this.
- `Game.GameManager.StartEnemyTurn`: the model keeps a dead actor's remaining `Enemies` entries live. As written, `Die` destroys the actor (`Actors/Actor.cs:85`). An enemy that was registered twice (see "Behaviour kept as written") leaves a second entry that then compares equal to null. `StartEnemyTurn` (`GameManager.cs:192`), `GetActorAtLocation` (`GameManager.cs:47`) and `GetNearbyEnemies` (`GameManager.cs:227`) all skip that entry. In the model it stays in `Enemies`, its AI still runs, and the lookups still find it.

## Findings

| source | as written | input that shows it | evidently intended | confidence | as-written member | corrected member |
|---|---|---|---|---|---|---|
| Assets/Scripts/Ui/InventoryUI.cs:114-116 | `Show` stores `numItems = list.Count` and then calls `Clear()`, which sets `numItems` back to 0 | Show a list of 3 items, then press down: `SelectNextItem` sees `numItems == 0` and the cursor stays on item 0. Items 1 and 2 can never be selected | Store the count after `Clear()`, so the cursor can visit every item and wraps around | not executed | `Ui.InventoryUI.ShowAsWritten`, `Ui.CursorStuckWithoutCount` | `Ui.InventoryUI.Show`, `Ui.AdvanceVisitsAll`, used by `Players.Player.OnDrop` and `Players.Player.OnUse` |
| Assets/Scripts/Map/MapManager.cs:39 | `Tiles` has no initialiser and Unity does not serialise dictionaries, so it is null when `Start` calls `GenerateDungeon`. `ClearFloor` calls `Tiles.Clear()` (line 210) on it | The first `GenerateDungeon` after loading: `ClearFloor` throws before `Tiles` is created on line 63 | Initialise `Tiles` where it is declared, as `Nodes` is | not executed | `Map.MapManager.AsWritten`, `Map.MapManager.GenerateDungeon` (outcome `ClearFailed`) | `Map.MapManager.constructor` |
| Assets/Scripts/Actors/Player.cs:153 | `OnDrop` (and `OnUse` on line 174) fetch the list to show through `GetComponent<Inventory>()`, but `Inventory` (`Items/Inventory.cs:8`) is a plain class, not a component, so the call throws | Press the drop or the use key with the inventory closed: the handler throws before `inventoryIsOpen` is set, so the inventory never opens in either mode | Show the player's own `inventory.Items` | not executed | `Players.Player.OnDropAsWritten`, `Players.Player.OnUseAsWritten` | `Players.Player.OnDrop`, `Players.Player.OnUse` |
