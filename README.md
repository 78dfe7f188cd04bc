# Roomies grid puzzle, modelled in Dafny

Roomies is a local-multiplayer push puzzle. Each player steers a character
over a grid of tiles. Each tile holds at most one item: a prop, an
obstacle or a character. A character leaning into an item pushes it, and
the item ahead pushes the whole line in front of it. Stages are authored
in an editor that generates a stage, edits its tiles, props and spawn
slots, recomputes the tiles' neighbour links and validates the result. A
game manager keeps the roster, the score and the choice of the next stage.
An object pool hands out and takes back the instances of the scene.

The model covers that core:

- **`StageRecords`** (`stage_data.dfy`): the stage, tile, prop and spawn records and the `Direction` enum. `Unnamed(code)` stands for an integer cast to the enum that names no value.
- **`GridTopology`** (`grid_topology.dfy`): index arithmetic (`GetTileIndex`, `GetPath`), the first-match tile lookup `HasTile` and the facing-to-yaw table.
- **`StageAdjacency`** (`stage_adjacency.dfy`) and **`StageEditing`** (`stage_editing.dfy`): the editor's neighbour recompute along one row or column, its item edits and its tile add/erase. Class `StageEditor` updates the stage in place with loops, and each method is proved equal to a specification function about which the properties are proved.
- **`StageValidation`** (`stage_validation.dfy`) and **`StageCreation`** (`stage_creation.dfy`): the validator and the generator of a new stage. The generator fills a tile array in nested loops.
- **`GridWorld`**, **`GridPush`**, **`GridMotion`**, **`CharacterRules`**, **`GridCharacters`**, **`GridLoad`** and **`GridTick`**: the live grid as a value. This is the tile dictionary, with each tile's occupant, plus the item table. On it are defined occupancy (`SetTileIndex`), push legality and push resolution for each kind of item, the per-frame offset decay and obstacle flags, the character's per-frame state machine, stage loading, and a whole frame.
- **`GridRuntime`** (`grid_runtime.dfy`): class `GridManager` holds the same tables as mutable fields. Each of its methods performs one of those operations in place and is proved to leave exactly the state the value-level function gives.
- **`GameFlow`** (`game_flow.dfy`): class `GameManager` with the roster, scoring and stage choice, proved against value-level functions.
- **`Pooling`** (`pooling.dfy`) and **`Lists`** (`lists.dfy`): class `Pool` with its prefab registry, its instance lists and its per-prefab FIFO free lists.

Modelling choices:

- A C# null is `Nullable.Null`. An exception thrown by the code is a `Null` result, an `ok == false` result or a `crashed` flag.
- Offsets, velocities and timers are `real`s, and the frame time is a parameter.
- Random draws are `draw: nat` parameters.
- Player input is a map from player index to stick values.
- The push recursion carries a fuel bound, which the callers set to the tile count.
- Where the repository's design notes and its code differ, the model follows the code. Two cases:
  - The neighbour recompute does not jump over holes. A cell whose successor is missing links back to the start of its own populated run, so each run is its own cycle.
  - The validator asks for at least one win prop, not exactly one.

## Model

| member | source | states |
|---|---|---|
| StageRecords.FromCode | Assets/3_Scripts/Runtime/TileGrid/StageData.cs:67-75 | the cast `(Direction)n` keeps the integer, and gives one of the five named values exactly for 0..4 |
| StageRecords.CodeRoundTrip | Assets/3_Scripts/Runtime/TileGrid/StageData.cs:67-75 | casting a direction's code back gives the same direction, and code 0 is exactly `None` |
| StageRecords.Neighbour | Assets/3_Scripts/Runtime/TileGrid/GridTile.cs:39-53 | a stored neighbour exists exactly for the four movement directions, and it is the record's field for that side |
| GridTopology.GetPath | Assets/3_Scripts/Runtime/TileGrid/GridManager.cs:352-366 | a null stage gives (-1, -1); otherwise the column is within the grid, the pair maps back to the same index, and an index inside the grid has a row inside it |
| GridTopology.PathOfIndex | Assets/3_Scripts/Runtime/TileGrid/GridManager.cs:346-366 | the path of a cell's index is that cell: `GetPath` inverts `GetTileIndex` |
| GridTopology.FirstTile | Assets/3_Scripts/Runtime/TileGrid/GridManager.cs:369-383 | -1 exactly when no record has the index; otherwise a matching record with none before it |
| GridTopology.HasTile | Assets/3_Scripts/Runtime/TileGrid/GridManager.cs:369-383 | the scan returns the first matching position, and -1 for a null stage or a missing index |
| GridTopology.FirstTileSameIndices | Assets/3_Scripts/Runtime/TileGrid/GridManager.cs:369-383 | a lookup reads only the `tileIndex` fields: two tile lists with the same indices answer alike |
| GridTopology.RotationTable | Assets/3_Scripts/Runtime/TileGrid/GridManager.cs:386-407 | opposite facings are half a turn apart, the four movement directions have distinct yaws, and any other value faces like `Up` |
| StageAdjacency.Iterate | Assets/3_Scripts/Editor/StageEditor.cs:922-942 | one step along a line of `total` cells is the next or previous position modulo `total` |
| StageAdjacency.StepsBack | Assets/3_Scripts/Editor/StageEditor.cs:892-904 | the backward scan's count: every counted cell behind the start is populated, and the one after the count is a hole unless the scan went all the way round |
| StageAdjacency.StepsAhead | Assets/3_Scripts/Editor/StageEditor.cs:892-904 | the same count looking forward, the mirror image of `StepsBack` |
| StageAdjacency.RunStartBounded | Assets/3_Scripts/Editor/StageEditor.cs:892-904 | when the cell after `i` is a hole, the backward scan stops inside the line, on a hole, in fewer than `total - 1` steps: the inner loop terminates |
| StageAdjacency.RunEndBounded | Assets/3_Scripts/Editor/StageEditor.cs:892-904 | the mirror statement for the forward scan from a cell whose predecessor is a hole |
| StageAdjacency.StepsAheadExact | Assets/3_Scripts/Editor/StageEditor.cs:892-904 | a forward scan over exactly `r` populated cells followed by a hole counts `r` |
| StageAdjacency.StepsBackExact | Assets/3_Scripts/Editor/StageEditor.cs:892-904 | a backward scan over exactly `r` populated cells followed by a hole counts `r` |
| StageAdjacency.RunSeenFromEnd | Assets/3_Scripts/Editor/StageEditor.cs:892-904 | the cells of a run are all populated when read backwards from its last cell |
| StageAdjacency.RunSeenFromStart | Assets/3_Scripts/Editor/StageEditor.cs:892-904 | the cells of a run are all populated when read forwards from its first cell |
| StageAdjacency.PrevOfRunStart | Assets/3_Scripts/Editor/StageEditor.cs:887-904 | the forward link of a run's last cell goes to the run's first cell, and that cell's backward link comes back |
| StageAdjacency.NextOfRunEnd | Assets/3_Scripts/Editor/StageEditor.cs:887-904 | the backward link of a run's first cell goes to the run's last cell, and that cell's forward link comes back |
| StageAdjacency.NextPrevInverse | Assets/3_Scripts/Editor/StageEditor.cs:870-920 | successor and predecessor map the populated cells of a line to populated cells and are inverse to each other, so every run closes into a cycle |
| StageAdjacency.LoneCellLinksToItself | Assets/3_Scripts/Editor/StageEditor.cs:887-904 | a tile with holes on both sides of it links to itself in both directions |
| StageAdjacency.FullLineWraps | Assets/3_Scripts/Editor/StageEditor.cs:887-904 | on a line with no hole the links are plain wrap-around steps |
| StageAdjacency.PatternAt | Assets/3_Scripts/Editor/StageEditor.cs:879-884 | a cell counts as populated exactly when some tile record carries its index |
| StageAdjacency.PatternSameIndices | Assets/3_Scripts/Editor/StageEditor.cs:879-884 | which cells are populated depends only on the records' indices, not on their neighbour fields |
| StageAdjacency.LineCellInjective | Assets/3_Scripts/Runtime/TileGrid/GridManager.cs:346-349 | distinct cells of one row or column have distinct tile indices |
| StageAdjacency.LinePosition | Assets/3_Scripts/Editor/StageEditor.cs:876-879 | the position of an index on a line is a cell of the line with that index, or -1 when no cell of the line has it |
| StageAdjacency.LinePositionOfCell | Assets/3_Scripts/Editor/StageEditor.cs:876-879 | the position of a cell's index is that cell |
| StageAdjacency.LinkStepSameIndices | Assets/3_Scripts/Editor/StageEditor.cs:905-918 | one pass of the loop body rewrites neighbour fields only, so every record keeps its index |
| StageAdjacency.RecalcPrefixSameIndices | Assets/3_Scripts/Editor/StageEditor.cs:876-919 | however many cells the loop has handled, the records keep their indices |
| StageAdjacency.OwnerOfCell | Assets/3_Scripts/Editor/StageEditor.cs:880-885 | the record a populated cell's lookup finds is owned by that cell |
| StageAdjacency.CellOfOwner | Assets/3_Scripts/Editor/StageEditor.cs:880-885 | the cell that owns a record is populated, and its lookup finds that record |
| StageAdjacency.LinkStepShape | Assets/3_Scripts/Editor/StageEditor.cs:876-919 | after the loop has handled cells 0 to i, each record's forward link is final when its cell was handled, its backward link is final when its predecessor was handled, and nothing else of it has changed |
| StageAdjacency.HoleKeepsShape | Assets/3_Scripts/Editor/StageEditor.cs:881-884 | a hole in the line is skipped: passing it changes no record |
| StageAdjacency.PrefixShapeHolds | Assets/3_Scripts/Editor/StageEditor.cs:876-919 | the loop invariant: after the first `k` cells every record has the shape `LinkStepShape` describes |
| StageAdjacency.RecalcLineShape | Assets/3_Scripts/Editor/StageEditor.cs:870-920 | the recompute of one line, record by record: the live record of each populated cell points forwards to its successor and backwards to its predecessor, and every other record and field is untouched |
| StageAdjacency.RecalcLineLinksCells | Assets/3_Scripts/Editor/StageEditor.cs:905-918 | after the recompute, the forward link of a populated cell reaches the next cell, and that cell's backward link comes back |
| StageAdjacency.RecalcLineSameIndices | Assets/3_Scripts/Editor/StageEditor.cs:870-920 | the recompute keeps the grid's size and every record's index |
| StageAdjacency.OwnerSameIndices | Assets/3_Scripts/Editor/StageEditor.cs:880-885 | ownership depends only on the grid's size and the records' indices |
| StageAdjacency.RecalcLineIdempotent | Assets/3_Scripts/Editor/StageEditor.cs:870-920 | a second recompute of the same line changes nothing |
| StageAdjacency.RecalcLineKeeps | Assets/3_Scripts/Editor/StageEditor.cs:870-920 | one line's recompute keeps each record's index, prefab, variant and its links across the line's axis, and leaves a record off the line untouched |
| StageAdjacency.RecalculateLocal | Assets/3_Scripts/Editor/StageEditor.cs:851-868 | recomputing around a tile changes only records on its row (left and right) and its column (up and down) |
| StageEditing.ScanBack | Assets/3_Scripts/Editor/StageEditor.cs:893-904 | one step of the inner scan: either the cell one further back is a hole and the scan ends on the first cell of the run, which is the successor of `i`, or it is populated and the scan goes on |
| StageEditing.FirstPlayer | Assets/3_Scripts/Editor/StageEditor.cs:1034-1045 | -1 exactly when no spawn slot is on the tile; otherwise a slot on the tile with none before it |
| StageEditing.FirstProp | Assets/3_Scripts/Editor/StageEditor.cs:1060-1071 | -1 exactly when no prop is on the tile; otherwise a prop on the tile with none before it |
| StageEditing.HasPlayer | Assets/3_Scripts/Editor/StageEditor.cs:1034-1045 | the scan returns the first spawn slot on the tile, or -1 |
| StageEditing.HasProp | Assets/3_Scripts/Editor/StageEditor.cs:1060-1071 | the scan returns the first prop on the tile, or -1 |
| StageEditing.PropsOnConcat | Assets/3_Scripts/Editor/StageEditor.cs:1102-1108 | the props on a tile of two joined arrays are those of the first array followed by those of the second |
| StageEditing.PlayersOnUpdate | Assets/3_Scripts/Editor/StageEditor.cs:1053-1056 | re-placing one spawn slot moves one count from its old tile to its new one |
| StageEditing.RemovedPropEffect | Assets/3_Scripts/Editor/StageEditor.cs:1122-1133 | `RemoveItems` deletes exactly the first prop on the tile, shortens the array by one exactly when there was one, and keeps the props of every other tile in order |
| StageEditing.RemovedPropAt | Assets/3_Scripts/Editor/StageEditor.cs:1126-1132 | removing the first prop on a tile keeps the other tiles' props and drops the head of that tile's props |
| StageEditing.RemovedPlayerEffect | Assets/3_Scripts/Editor/StageEditor.cs:1114-1120 | `RemoveItems` takes exactly one spawn slot off the tile when there is one and changes the count of no other placed tile |
| StageEditing.RemovedItemsSound | Assets/3_Scripts/Editor/StageEditor.cs:1112-1134 | on a stage where no two items share a tile, `RemoveItems` leaves the tile with no prop and no spawn slot and keeps that invariant |
| StageEditing.AddedPropSound | Assets/3_Scripts/Editor/StageEditor.cs:1088-1109 | `AddProp` keeps the one-item-per-tile invariant and leaves exactly the new prop on the tile, last in the array, with no spawn slot there |
| StageEditing.SoundAppendProp | Assets/3_Scripts/Editor/StageEditor.cs:1102-1108 | appending a prop on a tile with no item keeps the one-item-per-tile invariant |
| StageEditing.FirstPropAppend | Assets/3_Scripts/Editor/StageEditor.cs:1102-1108 | a prop appended on a tile no prop stands on becomes that tile's first prop |
| StageEditing.AddedPlayerSound | Assets/3_Scripts/Editor/StageEditor.cs:1048-1057 | `AddPlayer` keeps the one-item-per-tile invariant, puts the chosen slot on the tile with its facing and no prop there, and moves no other slot except one that stood on the tile |
| StageEditing.SlotOnFreeTileSound | Assets/3_Scripts/Editor/StageEditor.cs:1053-1056 | moving a spawn slot onto a tile with no item keeps the one-item-per-tile invariant |
| StageEditing.RecalculateKeepsRecords | Assets/3_Scripts/Editor/StageEditor.cs:851-868 | the recompute keeps every record's index and prefab, the grid's size and both item arrays |
| StageEditing.RecalculateKeepsLookup | Assets/3_Scripts/Editor/StageEditor.cs:851-868 | the recompute keeps which record each index finds, that record's prefab, the uniqueness of indices and the item arrays |
| StageEditing.EditedAddsTile | Assets/3_Scripts/Editor/StageEditor.cs:784-802 | before the recompute, a positive palette entry leaves the pressed cell's first record with prefab `type - 1`, adding a record only when there was none |
| StageEditing.FirstTileAppend | Assets/3_Scripts/Editor/StageEditor.cs:787-796 | a record appended for an absent index becomes that index's first record and keeps indices unique |
| StageEditing.EditAddsTile | Assets/3_Scripts/Editor/StageEditor.cs:768-805 | a press with a positive palette entry leaves a tile of prefab `type - 1` on the cell, adds a record only when there was none, keeps indices unique and leaves the items alone |
| StageEditing.EditedErasesTile | Assets/3_Scripts/Editor/StageEditor.cs:774-782 | before the recompute, palette entry 0 on a tile deletes one record and clears the tile's items as `RemoveItems` does |
| StageEditing.EditErasesTile | Assets/3_Scripts/Editor/StageEditor.cs:768-805 | a press with palette entry 0 on a tile deletes its first record and its items, and with unique indices leaves the cell empty |
| StageEditing.StageEditor.RecalculateLine | Assets/3_Scripts/Editor/StageEditor.cs:870-920 | the in-place loop leaves the stage equal to the one-line recompute `RecalcLine`, whose properties are the `StageAdjacency` lemmas |
| StageEditing.StageEditor.RecalculateCell | Assets/3_Scripts/Editor/StageEditor.cs:878-918 | one pass of the loop body extends the handled prefix by one cell |
| StageEditing.StageEditor.FindNext | Assets/3_Scripts/Editor/StageEditor.cs:887-904 | the inner scan ends on the cell's successor (the next cell, or the first cell of its run) and returns that cell's index and record |
| StageEditing.StageEditor.ScanStep | Assets/3_Scripts/Editor/StageEditor.cs:895-903 | one pass of the inner loop: it either stops on the first cell of the run or extends the populated stretch behind the cell by one |
| StageEditing.StageEditor.RecalculateAdjacents | Assets/3_Scripts/Editor/StageEditor.cs:851-868 | the stage ends as `Recalculate`: row, then column, and nothing for a path of (-1, -1) |
| StageEditing.StageEditor.RemoveItems | Assets/3_Scripts/Editor/StageEditor.cs:1112-1134 | the stage ends as `RemovedItems`: the first slot on the tile unplaced and the first prop on it deleted |
| StageEditing.StageEditor.AddProp | Assets/3_Scripts/Editor/StageEditor.cs:1088-1109 | the stage ends as `AddedProp`: the tile cleared and the new prop appended |
| StageEditing.StageEditor.AddPlayer | Assets/3_Scripts/Editor/StageEditor.cs:1048-1057 | the stage ends as `AddedPlayer`: the tile cleared and the chosen slot moved onto it |
| StageEditing.StageEditor.EditTile | Assets/3_Scripts/Editor/StageEditor.cs:768-805 | the stage ends as the palette edit followed by the recompute around the tile |
| StageValidation.FirstStrayPlayer | Assets/3_Scripts/Editor/StageEditor.cs:727-736 | -1 exactly when every spawn slot is on the grid; otherwise the first slot off it |
| StageValidation.PropProblemNone | Assets/3_Scripts/Editor/StageEditor.cs:697-716 | with a spawn array, the prop loop finds nothing exactly when every prop is on the grid and shares no tile with a spawn slot |
| StageValidation.PropNeverValid | Assets/3_Scripts/Editor/StageEditor.cs:697-716 | the prop loop never reports success as a verdict |
| StageValidation.CheckStageAccepts | Assets/3_Scripts/Editor/StageEditor.cs:683-740 | the validator accepts a stage exactly when both item arrays exist, every prop is on the grid on a tile no spawn uses, some prop is a win prop and every spawn is on the grid |
| StageValidation.CheckStageValid | Assets/3_Scripts/Editor/StageEditor.cs:683-740 | the loops return the verdict of `CheckStage`, in the source's order of checks |
| StageValidation.NullPlayersUnreachable | Assets/3_Scripts/Editor/StageEditor.cs:710 | as written, the "players are null" verdict can never be returned (with Assets/3_Scripts/Editor/StageEditor.cs:723-726) |
| StageValidation.NullPlayersCrashes | Assets/3_Scripts/Editor/StageEditor.cs:710 | a stage with one in-grid win prop and no spawn array dereferences the null array (with Assets/3_Scripts/Editor/StageEditor.cs:1036) |
| StageValidation.GuardedPropAgrees | Assets/3_Scripts/Editor/StageEditor.cs:697-716 | with a spawn array, the guarded prop loop is the original one |
| StageValidation.GuardedPropNoCrash | Assets/3_Scripts/Editor/StageEditor.cs:697-716 | the guarded prop loop never dereferences a null array, and without spawns it finds nothing exactly when every prop is on the grid |
| StageValidation.CheckStageGuardedCorrect | Assets/3_Scripts/Editor/StageEditor.cs:683-740 | the guarded validator never crashes, agrees with the original wherever a spawn array exists, accepts exactly the valid stages, and reports the missing spawn array once the props are in order |
| StageCreation.ProductParity | Assets/3_Scripts/Editor/StageEditor.cs:337 | the parity of a row's first index `y * columns` is odd exactly when both the row and the column count are odd |
| StageCreation.HorizontalWrap | Assets/3_Scripts/Editor/StageEditor.cs:345-356 | the row-local left and right wrap of the generator is the step one column back or ahead modulo the row length |
| StageCreation.UpWrap | Assets/3_Scripts/Editor/StageEditor.cs:357-362 | the generator's up link, with its wrap past the first row, is the cell one row up modulo the row count |
| StageCreation.DownWrap | Assets/3_Scripts/Editor/StageEditor.cs:363-368 | the generator's down link, with its wrap past the last row, is the cell one row down modulo the row count |
| StageCreation.CheckerVariant | Assets/3_Scripts/Editor/StageEditor.cs:337-341 | the generator's variant flip on even rows of an even-width stage gives the checkerboard colour `(x + y + [columns even]) % 2` |
| StageCreation.GeneratedIsTorus | Assets/3_Scripts/Editor/StageEditor.cs:334-368 | the tile the generator builds for column `x` of row `y` is the torus tile at that cell |
| StageCreation.CellStep | Assets/3_Scripts/Editor/StageEditor.cs:328-370 | each generated cell lies in the tile array, is the torus tile there, and is a border cell exactly when it is on the first or last row or column |
| StageCreation.ComputeTile | Assets/3_Scripts/Editor/StageEditor.cs:334-368 | the loop body builds the generated tile for that cell |
| StageCreation.FillRow | Assets/3_Scripts/Editor/StageEditor.cs:328-380 | after a row the tile array holds the torus tile at every index up to the row's end and the wall list has grown by that row's border cells in index order |
| StageCreation.CreateNewStage | Assets/3_Scripts/Editor/StageEditor.cs:316-400 | the generator yields the stage of `NewStage`: the torus tiles, a wall on every border cell in index order followed by the win prop at the centre, and one spawn per player slot on the second row |
| StageCreation.VerticalLinksInverse | Assets/3_Scripts/Editor/StageEditor.cs:357-368 | on a generated stage down and up links stay in the grid and undo each other |
| StageCreation.HorizontalLinksInverse | Assets/3_Scripts/Editor/StageEditor.cs:345-356 | on a generated stage right and left links stay in the grid and undo each other |
| StageCreation.CheckerAlternates | Assets/3_Scripts/Editor/StageEditor.cs:337-341 | generated variants are 0 or 1 and differ between horizontally and vertically adjacent cells |
| StageCreation.BorderWallsOrdered | Assets/3_Scripts/Editor/StageEditor.cs:370-379 | the wall list holds exactly the border cells below the bound, in increasing index order |
| StageCreation.BorderWallsOn | Assets/3_Scripts/Editor/StageEditor.cs:370-379 | a cell carries one wall when it is a border cell below the bound and none otherwise |
| StageCreation.WinCellInterior | Assets/3_Scripts/Editor/StageEditor.cs:382-388 | on a stage at least three by three the win prop's cell lies in the grid, on the middle row, off the border |
| StageCreation.SpawnInterior | Assets/3_Scripts/Editor/StageEditor.cs:393-399 | spawn slot `p` lies in the grid on the second row, off the border, when the row has room for it |
| StageCreation.NewStagePropsOn | Assets/3_Scripts/Editor/StageEditor.cs:370-390 | on a new stage each cell carries its border wall, the centre cell the win prop, and every other cell nothing |
| StageCreation.NewStageValid | Assets/3_Scripts/Editor/StageEditor.cs:316-400 | a new stage with at least four rows and room for its spawns is well-formed and the validator accepts it (with Assets/3_Scripts/Editor/StageEditor.cs:683-740) |
| CharacterRules.Clamp | Assets/3_Scripts/Runtime/TileGrid/GridCharacter.cs:241-245 | the clamped value lies in the range and equals the input whenever the input already does |
| CharacterRules.PlayerAxis | Assets/3_Scripts/Runtime/GameManager/GameManager.cs:503-511 | a player's axis always reads within [-1, 1] |
| CharacterRules.QuantizeValues | Assets/3_Scripts/Runtime/TileGrid/GridCharacter.cs:136-157 | a dead-zoned axis reads -1, 0 or 1: 0 exactly inside the dead zone, otherwise the axis' sign |
| CharacterRules.ClampInvisible | Assets/3_Scripts/Runtime/TileGrid/GridCharacter.cs:136-157 | clamping the stick before the dead zone never changes what the character reads when the dead zone is at most 1 (with Assets/3_Scripts/Runtime/GameManager/GameManager.cs:508) |
| CharacterRules.NewFacingRule | Assets/3_Scripts/Runtime/TileGrid/GridCharacter.cs:181-218 | a character turns to the way its input along its facing's axis points, otherwise to the way its input across points, otherwise keeps its facing; a non-movement facing never changes |
| CharacterRules.FacingTakesInput | Assets/3_Scripts/Runtime/TileGrid/GridCharacter.cs:181-222 | after turning, any nonzero input has a nonzero component along the new facing, so the input value the move reads is never lost |
| CharacterRules.SetState | Assets/3_Scripts/Runtime/TileGrid/GridCharacter.cs:98-108 | the state is taken, and exactly one state-change notification is raised exactly when the state differs |
| CharacterRules.UpdateDirectionEffect | Assets/3_Scripts/Runtime/TileGrid/GridCharacter.cs:306-321 | a new facing stops the character, restarts its immovable timer and makes it Idle, notifying only if it was not Idle; keeping the facing changes nothing |
| GridWorld.ExclusiveOnePerTile | Assets/3_Scripts/Runtime/TileGrid/GridItem.cs:34-57 | while every item on a tile is that tile's occupant, no two items share a tile (with Assets/3_Scripts/Runtime/TileGrid/GridTile.cs:11-12) |
| GridWorld.GetTile | Assets/3_Scripts/Runtime/TileGrid/GridManager.cs:324-331 | a tile comes back exactly when the index is a key of the dictionary, and it is the tile under that index |
| GridWorld.GetAdjacentTile | Assets/3_Scripts/Runtime/TileGrid/GridTile.cs:34-56 | an adjacent tile, when there is one, is a tile of the dictionary |
| GridWorld.AdjacentTileFollowsData | Assets/3_Scripts/Runtime/TileGrid/GridTile.cs:34-56 | the adjacent tile exists exactly when the direction is a movement direction whose stored neighbour index is in the dictionary, and it is the tile under that neighbour index |
| GridWorld.SetTileIndexEffect | Assets/3_Scripts/Runtime/TileGrid/GridItem.cs:34-57 | the item takes the index and becomes the occupant of the tile under it, on a tile exactly when one exists; its old tile is vacated only if it was the occupant; offset and push direction are cleared on reset and kept otherwise; no other item or tile record changes |
| GridWorld.SetTileIndexConsistent | Assets/3_Scripts/Runtime/TileGrid/GridItem.cs:34-57 | moving an item keeps every tile keyed by its own index, every item's tile in the dictionary and every occupant standing on its tile |
| GridWorld.SetTileIndexExclusive | Assets/3_Scripts/Runtime/TileGrid/GridItem.cs:34-57 | moving an item onto a free tile or off the grid keeps every item on a tile that tile's occupant |
| GridWorld.SetVariant | Assets/3_Scripts/Runtime/TileGrid/GridItem.cs:21-31 | the variant switches have one entry per variant |
| GridWorld.SetVariantExactlyOne | Assets/3_Scripts/Runtime/TileGrid/GridItem.cs:21-31 | at most one variant is on, one is on exactly when the chosen position exists, and it is that one (with Assets/3_Scripts/Runtime/TileGrid/GridTile.cs:22-30) |
| GridWorld.LoadTileEffect | Assets/3_Scripts/Runtime/TileGrid/GridTile.cs:15-31 | a loaded tile holds its record, has no occupant, and has exactly the record's variant switched on |
| GridPush.CanPushNeeds | Assets/3_Scripts/Runtime/TileGrid/GridItem.cs:61-83 | a push is allowed only in a movement direction, into an existing next tile other than the start tile, and only through the gate of the item's kind: a stunned character, a prop unlocked that way, an obstacle that is unlocked that way or untouched by a character (with Assets/3_Scripts/Runtime/TileGrid/GridProp.cs:31-57, Assets/3_Scripts/Runtime/TileGrid/Obstacle.cs:25-58, Assets/3_Scripts/Runtime/TileGrid/GridCharacter.cs:111-121) |
| GridPush.ObstacleIgnoresLocksUntouched | Assets/3_Scripts/Runtime/TileGrid/Obstacle.cs:25-58 | an obstacle no character has touched gives way exactly when the chain ahead does, whatever its locks |
| GridPush.ChainCanPushMonotone | Assets/3_Scripts/Runtime/TileGrid/GridItem.cs:61-83 | the recursion bound only cuts the chain check short: an allowed push stays allowed with more fuel |
| GridPush.CanPushMonotone | Assets/3_Scripts/Runtime/TileGrid/GridItem.cs:61-83 | the same for each kind's override |
| GridPush.WithAxis | Assets/3_Scripts/Runtime/TileGrid/GridItem.cs:125-137 | the offset component along a horizontal or vertical push is replaced, the other kept; a non-movement direction changes nothing |
| GridPush.Commit | Assets/3_Scripts/Runtime/TileGrid/GridItem.cs:108-114 | moving into the next cell takes one tile off the offset toward zero, so it shrinks |
| GridPush.PushTail | Assets/3_Scripts/Runtime/TileGrid/GridItem.cs:107-137 | the cell commit and the recording of the push keep the grid's links and its shape |
| GridPush.Push | Assets/3_Scripts/Runtime/TileGrid/GridItem.cs:92-138 | a push keeps the grid's links, the tile keys and the item count |
| GridPush.PushUnfold | Assets/3_Scripts/Runtime/TileGrid/GridItem.cs:92-138 | with a next tile, a push is the tail applied to the world after the next occupant was pushed, when pushing on is allowed |
| GridPush.PushFrame | Assets/3_Scripts/Runtime/TileGrid/GridItem.cs:92-138 | a push changes no tile record or variant and no item kind or variant: only occupants, tile indices, offsets and push directions move |
| GridPush.PushTailExclusive | Assets/3_Scripts/Runtime/TileGrid/GridItem.cs:107-119 | the commit moves an item only into a free tile, so it keeps one item per tile |
| GridPush.PushExclusive | Assets/3_Scripts/Runtime/TileGrid/GridItem.cs:92-138 | a whole chain push keeps one item per tile |
| GridPush.PushTailEffect | Assets/3_Scripts/Runtime/TileGrid/GridItem.cs:107-137 | past half a tile into a free next tile the item moves there, becoming its occupant and freeing its old tile, with its offset one tile smaller; past half a tile into a taken tile it stays with zero offset; within half a tile it stays with the given offset; the push direction is recorded in every case |
| GridPush.PushMovesRun | Assets/3_Scripts/Runtime/TileGrid/GridItem.cs:92-138 | pushing past half a tile into an unbroken line of items that ends in a free tile, within the recursion bound, moves every item of the line and the pusher one tile forward, frees the pusher's tile and changes no tile off the line |
| GridPush.RunStep | Assets/3_Scripts/Runtime/TileGrid/GridItem.cs:101-105 | the induction step of a run push: the item ahead pushes the rest of the run on, then the pusher commits |
| GridPush.RunEnd | Assets/3_Scripts/Runtime/TileGrid/GridItem.cs:107-119 | the last step of a run: the pusher steps into the free tile ahead |
| GridPush.RunCommit | Assets/3_Scripts/Runtime/TileGrid/GridItem.cs:107-119 | once the part of the run ahead has moved, the pusher's own commit extends the moved part by its tile |
| GridPush.PushWithoutNeighbour | Assets/3_Scripts/Runtime/TileGrid/GridItem.cs:94-99 | without a next tile a push changes nothing |
| GridPush.PrePushFrame | Assets/3_Scripts/Runtime/TileGrid/GridItem.cs:86-89 | a push attempt changes no tile, no other item and neither the pushed item's place nor its offset, so the grid's links are kept (with Assets/3_Scripts/Runtime/TileGrid/GridProp.cs:60-68, Assets/3_Scripts/Runtime/TileGrid/Obstacle.cs:15-23, Assets/3_Scripts/Runtime/TileGrid/GridCharacter.cs:330-352) |
| GridPush.PrePushWins | Assets/3_Scripts/Runtime/TileGrid/GridProp.cs:60-68 | a win is reported exactly when a character pushes a win prop, and it is that character's player's; an obstacle never reports one (with Assets/3_Scripts/Runtime/TileGrid/Obstacle.cs:15-23) |
| GridPush.PrePushStuns | Assets/3_Scripts/Runtime/TileGrid/GridCharacter.cs:330-352 | a character is stunned exactly when another character pushes it while it is not stunned and past its invulnerability; the stun timer restarts, the hit is reported once, followed by the one state change, and otherwise nothing happens |
| GridPush.PrePushMarksObstacle | Assets/3_Scripts/Runtime/TileGrid/Obstacle.cs:15-23 | an obstacle remembers a character's touch and a push attempt never clears that mark |
| GridCharacters.ReadInput | Assets/3_Scripts/Runtime/TileGrid/GridCharacter.cs:135-158 | each axis a character reads is -1, 0 or 1, and a character its player does not control reads nothing (with Assets/3_Scripts/Runtime/GameManager/GameManager.cs:503-511) |
| GridCharacters.Finish | Assets/3_Scripts/Runtime/TileGrid/GridCharacter.cs:288-302 | the end of a frame changes only the character's walking state and its own offset: no tile, no other item and no item's place (with Assets/3_Scripts/Runtime/TileGrid/GridItem.cs:141-174) |
| GridCharacters.LeanOffsetOf | Assets/3_Scripts/Runtime/TileGrid/GridCharacter.cs:246-265 | the offset a frame reaches is the offset along the facing plus the accelerated velocity times the frame time |
| GridCharacters.Lean | Assets/3_Scripts/Runtime/TileGrid/GridCharacter.cs:246-278 | the character takes the accelerated velocity, and ends Pushing exactly when it already was or its offset leans into an occupied tile ahead |
| GridCharacters.Shove | Assets/3_Scripts/Runtime/TileGrid/GridCharacter.cs:246-281 | accelerating and pushing keeps the grid's links, its shape and one item per tile; no item changes kind; the character keeps all its own fields but the new velocity and state |
| GridCharacters.Press | Assets/3_Scripts/Runtime/TileGrid/GridCharacter.cs:246-302 | the same for the push followed by the end of the frame, and no notification is lost |
| GridCharacters.Attempt | Assets/3_Scripts/Runtime/TileGrid/GridCharacter.cs:225-230 | a character not already pushing raises the push attempt on the occupant of the tile ahead; the attempt leaves the tiles, every place and the character itself alone |
| GridCharacters.Advance | Assets/3_Scripts/Runtime/TileGrid/GridCharacter.cs:223-286 | after the attempt the character either stops or moves: its tuning and facing stay, its velocity is either kept or the accelerated one, and against an occupant that cannot be pushed no tile and no place changes |
| GridCharacters.Turn | Assets/3_Scripts/Runtime/TileGrid/GridCharacter.cs:135-219 | the character keeps its tuning; its velocity is kept or zeroed; a movement facing stays a movement facing and any other facing is kept; it reads nothing while stunned |
| GridCharacters.CharacterUpdate | Assets/3_Scripts/Runtime/TileGrid/GridCharacter.cs:124-302 | a character's frame keeps the grid's links, its tile records and keys, every item's kind and one item per tile |
| GridCharacters.PrePushKeepsPusher | Assets/3_Scripts/Runtime/TileGrid/GridCharacter.cs:227-230 | a push attempt never changes the character that makes it (with Assets/3_Scripts/Runtime/TileGrid/GridCharacter.cs:330-352) |
| GridCharacters.StunnedIgnoresInput | Assets/3_Scripts/Runtime/TileGrid/GridCharacter.cs:135-163 | a stunned character, or one its player does not control, does the same whatever the stick says |
| GridCharacters.VelocityStaysBounded | Assets/3_Scripts/Runtime/TileGrid/GridCharacter.cs:248-253 | with a maximum velocity set, a character whose speed is within it stays within it after any frame, and its tuning never changes (with Assets/3_Scripts/Runtime/TileGrid/GridCharacter.cs:306-316) |
| GridCharacters.NoCrashOnCompleteGrid | Assets/3_Scripts/Runtime/TileGrid/GridCharacter.cs:223-227 | on a grid where every tile has four neighbours a character facing a movement direction never reaches a null reference |
| GridCharacters.NonCardinalFacingCrashes | Assets/3_Scripts/Runtime/TileGrid/GridCharacter.cs:181-227 | a character facing no movement direction reaches the null reference as soon as its player pushes the stick up or down past the dead zone |
| GridCharacters.PressesUnfold | Assets/3_Scripts/Runtime/TileGrid/GridCharacter.cs:181-243 | holding the stick toward the facing keeps the facing and the frame goes on to the tile ahead with the character otherwise unchanged |
| GridCharacters.LockedPropStops | Assets/3_Scripts/Runtime/TileGrid/GridCharacter.cs:232-243 | a prop locked in the direction a character presses stops it: no tile changes and no item changes place (with Assets/3_Scripts/Runtime/TileGrid/GridProp.cs:31-57) |
| GridCharacters.WinPropWins | Assets/3_Scripts/Runtime/TileGrid/GridCharacter.cs:227-230 | a character that is not already pushing and presses into a win prop reports its player's win (with Assets/3_Scripts/Runtime/TileGrid/GridProp.cs:60-68) |
| GridCharacters.ContactStuns | Assets/3_Scripts/Runtime/TileGrid/GridCharacter.cs:227-230 | a character that is not already pushing and presses into another character that is neither stunned nor invulnerable stuns it: the hit is reported and that character ends the frame stunned with its stun timer restarted (with Assets/3_Scripts/Runtime/TileGrid/GridCharacter.cs:330-352) |
| GridCharacters.DrawnFacingAsWritten | Assets/3_Scripts/Runtime/TileGrid/GridCharacter.cs:89-93 | as written, the drawn facing is the direction with code `draw % 5 + 1` |
| GridCharacters.DrawnFacingAsWrittenUnnamed | Assets/3_Scripts/Runtime/TileGrid/GridCharacter.cs:89-93 | as written, the draw 4 gives code 5, which names no movement direction |
| GridCharacters.DrawnFacing | Assets/3_Scripts/Runtime/TileGrid/GridCharacter.cs:89-93 | the corrected draw always gives a movement direction |
| GridCharacters.DrawnFacingCovers | Assets/3_Scripts/Runtime/TileGrid/GridCharacter.cs:89-93 | the corrected draw gives every movement direction for some value and nothing else |
| GridCharacters.DrawnFacingMatchesBelowFour | Assets/3_Scripts/Runtime/TileGrid/GridCharacter.cs:89-93 | the corrected draw gives the program's facing for draws 0 to 3, which are movement directions; the program's draw 4 alone differs |
| GridCharacters.Relocate | Assets/3_Scripts/Runtime/TileGrid/GridCharacter.cs:72-76 | the character stands on the given tile, that tile's occupant, on a tile exactly when the index names one, with exactly the chosen variant on and no offset or push direction; no other item and no tile record changes, and one item per tile is kept when the tile was free (with Assets/3_Scripts/Runtime/TileGrid/GridItem.cs:21-57) |
| GridCharacters.Ready | Assets/3_Scripts/Runtime/TileGrid/GridCharacter.cs:78-94 | unless no facing results, the character ends facing the given direction or else the drawn one, idle, still, with a fresh immovable timer and ready to be stunned (with Assets/3_Scripts/Runtime/TileGrid/GridCharacter.cs:306-321) |
| GridCharacters.PlaceFacingEffect | Assets/3_Scripts/Runtime/TileGrid/GridCharacter.cs:70-95 | a placed character stands on its tile as `Relocate` states and its own fields are as `Ready` states |
| GridCharacters.PlaceFacingExclusive | Assets/3_Scripts/Runtime/TileGrid/GridCharacter.cs:70-95 | placing a character on a free tile keeps one item per tile |
| GridCharacters.PlaceAsWritten | Assets/3_Scripts/Runtime/TileGrid/GridCharacter.cs:70-95 | as written, placing keeps the grid's links |
| GridCharacters.PlaceAsWrittenCrashes | Assets/3_Scripts/Runtime/TileGrid/GridCharacter.cs:89-93 | as written, a character placed with no facing and the draw 4 reaches a null reference on its first frame with vertical input (with Assets/3_Scripts/Runtime/TileGrid/GridCharacter.cs:181-227) |
| GridCharacters.Place | Assets/3_Scripts/Runtime/TileGrid/GridCharacter.cs:70-95 | with the corrected draw, placing keeps the grid's links |
| GridCharacters.PlaceNeverCrashes | Assets/3_Scripts/Runtime/TileGrid/GridCharacter.cs:70-95 | with the corrected draw, a character placed with no facing or a movement facing faces a movement direction, so on a grid with no edge its next frame never reaches a null reference (with Assets/3_Scripts/Runtime/TileGrid/GridCharacter.cs:223-227) |
| GridLoad.LoadTilesFirst | Assets/3_Scripts/Runtime/TileGrid/GridManager.cs:154-189 | the dictionary holds a tile for exactly the indices of the records that have a prefab, and the tile under an index is loaded from the first such record: a later duplicate never replaces it |
| GridLoad.LoadTilesEmpty | Assets/3_Scripts/Runtime/TileGrid/GridManager.cs:154-189 | every loaded tile is stored under its own index and starts with no occupant (with Assets/3_Scripts/Runtime/TileGrid/GridTile.cs:15-31) |
| GridLoad.TileGrid | Assets/3_Scripts/Runtime/TileGrid/GridManager.cs:154-189 | the grid before any item is placed keeps its links, has no item, and its tiles are the loaded dictionary |
| GridLoad.AddProp | Assets/3_Scripts/Runtime/TileGrid/GridManager.cs:194-254 | a pass of the prop loop keeps the grid's links when it does not throw (with Assets/3_Scripts/Runtime/TileGrid/GridProp.cs:17-28) |
| GridLoad.AddPropEffect | Assets/3_Scripts/Runtime/TileGrid/GridManager.cs:194-254 | a prop whose tile is missing or taken is skipped; any other joins the table as its tile's occupant with its record, its prefab's locks and kind and its chosen variant; it throws exactly when neither its prefab nor prefab 0 exists; nothing else changes and one item per tile is kept (with Assets/3_Scripts/Runtime/TileGrid/GridProp.cs:17-28) |
| GridLoad.PropPrefabFallback | Assets/3_Scripts/Runtime/TileGrid/GridManager.cs:212-218 | an out-of-range or empty prefab index falls back to prefab 0 |
| GridLoad.LoadProps | Assets/3_Scripts/Runtime/TileGrid/GridManager.cs:191-254 | the prop loop keeps the grid's links when it does not throw |
| GridLoad.LoadPropsThrowStays | Assets/3_Scripts/Runtime/TileGrid/GridManager.cs:191-254 | once a record throws, the whole prop loop throws |
| GridLoad.PropTiles | Assets/3_Scripts/Runtime/TileGrid/GridManager.cs:194-211 | the tiles the prop records name: every record's tile and nothing else |
| GridLoad.LoadPropsExclusive | Assets/3_Scripts/Runtime/TileGrid/GridManager.cs:191-254 | after the prop loop no tile holds two props, the tile keys and records are unchanged, and items stand only on tiles some record names |
| GridLoad.AddCharacter | Assets/3_Scripts/Runtime/TileGrid/GridManager.cs:266-290 | a pass of the character loop keeps the grid's links when it does not throw; the character is placed with the corrected facing draw (see Findings) |
| GridLoad.CastCharacters | Assets/3_Scripts/Runtime/TileGrid/GridManager.cs:266-290 | the character loop keeps the grid's links when it does not throw; characters get the corrected facing draw (see Findings) |
| GridLoad.CastCharactersThrowStays | Assets/3_Scripts/Runtime/TileGrid/GridManager.cs:266-290 | once a player throws, the whole character loop throws |
| GridLoad.LoadCharacters | Assets/3_Scripts/Runtime/TileGrid/GridManager.cs:257-291 | the character part of the load keeps the grid's links when it does not throw; characters get the corrected facing draw (see Findings) |
| GridLoad.Load | Assets/3_Scripts/Runtime/TileGrid/GridManager.cs:139-304 | the whole load keeps the grid's links when it does not throw; characters get the corrected facing draw (see Findings) |
| GridLoad.SpawnTiles | Assets/3_Scripts/Runtime/TileGrid/GridManager.cs:270 | the spawn tiles of the first `n` players: each one's slot and nothing else (with Assets/3_Scripts/Runtime/TileGrid/GridManager.cs:286) |
| GridLoad.AddCharacterEffect | Assets/3_Scripts/Runtime/TileGrid/GridManager.cs:266-290 | player `p`'s character joins the table after the earlier items, unchanged, standing on its spawn slot (on a tile exactly when the slot names one), idle, with the chosen character's settings and facing the slot's direction or else `DrawnFacing(draw)`, the corrected draw of the Findings table, which always gives a movement direction where the program's draw can give code 5 (with Assets/3_Scripts/Runtime/TileGrid/GridCharacter.cs:61-95) |
| GridLoad.AddCharacterExclusive | Assets/3_Scripts/Runtime/TileGrid/GridManager.cs:266-290 | a spawn slot on a tile no item stands on keeps one item per tile |
| GridLoad.CastCharactersExclusive | Assets/3_Scripts/Runtime/TileGrid/GridManager.cs:266-290 | players on distinct slots, none on a tile already holding an item, keep one item per tile |
| GridLoad.LoadExclusive | Assets/3_Scripts/Runtime/TileGrid/GridManager.cs:139-304 | a stage whose players stand on distinct slots, none on a tile some prop record names, loads with one item per tile |
| GridLoad.TooFewSpawnsThrows | Assets/3_Scripts/Runtime/TileGrid/GridManager.cs:258-270 | more joined players than spawn slots, or no spawn table, always throws once the props have loaded |
| GridLoad.CastCharactersPlaces | Assets/3_Scripts/Runtime/TileGrid/GridManager.cs:266-290 | with a slot for every player and a prefab for every character, the character loop never throws and places each player `q` as the item right after the earlier items plus `q`, facing as `AddCharacterEffect` states (corrected draw) |
| GameFlow.RemovePlayerEffect | Assets/3_Scripts/Runtime/GameManager/GameManager.cs:242-271 | a removal is refused exactly outside the title and setup screens or for an index off the roster; otherwise exactly that entry goes, the others keep their order, and nothing else changes |
| GameFlow.ColorUsedNext | Assets/3_Scripts/Runtime/GameManager/GameManager.cs:357-363 | taking one more player into account adds exactly that player's colour to the used ones |
| GameFlow.RemoveAscending | Assets/3_Scripts/Runtime/GameManager/GameManager.cs:359-362 | striking one entry out of an ascending list keeps it ascending and loses exactly that value |
| GameFlow.LowestUnusedColor | Assets/3_Scripts/Runtime/GameManager/GameManager.cs:350-372 | -1 exactly when every colour from `from` on is used; otherwise an unused colour, with every colour below it from `from` on used |
| GameFlow.Colors | Assets/3_Scripts/Runtime/GameManager/GameManager.cs:357-363 | the colours the players have, no more entries than players |
| GameFlow.ColorRange | Assets/3_Scripts/Runtime/GameManager/GameManager.cs:353-356 | the list of colour indices holds exactly 0 to `n - 1` |
| GameFlow.FreeColorExists | Assets/3_Scripts/Runtime/GameManager/GameManager.cs:273-306 | with fewer players than colours some colour is always free (with Assets/3_Scripts/Runtime/GameManager/GameManager.cs:350-372) |
| GameFlow.AddPlayerEffect | Assets/3_Scripts/Runtime/GameManager/GameManager.cs:273-306 | a player is added exactly while the roster is below its limit, otherwise nothing changes; the new entry has no name, is not ready, has no score, takes the next character in the table and the lowest unused colour (one always exists while players are fewer than colours); the earlier players stay as they were |
| GameFlow.AddPlayerKeepsRoster | Assets/3_Scripts/Runtime/GameManager/GameManager.cs:273-306 | adding a player keeps colours distinct and every colour and character index within its table |
| GameFlow.RemovePlayerKeepsRoster | Assets/3_Scripts/Runtime/GameManager/GameManager.cs:242-271 | removing a player keeps colours distinct and every index within its table |
| GameFlow.SetStateEffect | Assets/3_Scripts/Runtime/GameManager/GameManager.cs:676-715 | `SetState` never enters loading or the round result and otherwise enters the state asked for; the title screen empties the roster and clears the current stage; nothing else changes |
| GameFlow.TotalScoreBump | Assets/3_Scripts/Runtime/GameManager/GameManager.cs:648-666 | raising one player's score by one raises the total by one |
| GameFlow.WinStageEffect | Assets/3_Scripts/Runtime/GameManager/GameManager.cs:648-666 | outside play or for a player off the roster nothing changes; a win during play gives that player alone one point, records the winner, ends the match exactly when the score reaches the rounds per match and moves to the round result; the total rises by exactly one and a second win is refused |
| GameFlow.WinStageKeepsRoster | Assets/3_Scripts/Runtime/GameManager/GameManager.cs:648-666 | a win keeps colours distinct and every index within its table |
| GameFlow.UnplayedStagesMembers | Assets/3_Scripts/Runtime/GameManager/GameManager.cs:616-627 | the unplayed list holds exactly the ids of stages not yet played whose complexity the round allows |
| GameFlow.PlayRandomStageEffect | Assets/3_Scripts/Runtime/GameManager/GameManager.cs:581-645 | an empty stage table throws, exactly, since the first stage is read before anything else; otherwise the debug stage always wins; otherwise, while some allowed stage is unplayed, one of those is chosen and added to the played list; once all are played the list starts over with the chosen one; with no stage allowed the first stage of the table is played; the game then enters loading with no winner and the roster kept |
| GameFlow.EveryUnplayedStageDrawable | Assets/3_Scripts/Runtime/GameManager/GameManager.cs:605-609 | every unplayed stage is the one some draw picks, the call then not throwing |
| GameFlow.ZeroScores | Assets/3_Scripts/Runtime/GameManager/GameManager.cs:555-563 | every player's entry as it was, with its score reset |
| GameFlow.PlayNewMatchEffect | Assets/3_Scripts/Runtime/GameManager/GameManager.cs:550-567 | a new match throws exactly on an empty stage table, after resetting the round, the played list and the scores; otherwise it starts at round zero with every score zero, the roster otherwise kept, only the chosen stage played, and the game loading |
| GameFlow.TotalScoreZero | Assets/3_Scripts/Runtime/GameManager/GameManager.cs:555-563 | with every score reset the total is zero |
| GameFlow.PlayNewRoundEffect | Assets/3_Scripts/Runtime/GameManager/GameManager.cs:569-579 | a new round throws exactly on an empty stage table, after counting the round; otherwise it counts one more round, keeps the roster and the scores, and the game enters loading |
| GameFlow.FlowKeepsRoster | Assets/3_Scripts/Runtime/GameManager/GameManager.cs:550-579 | changing screens and starting matches or rounds keep colours distinct and indices in range, including the reset left behind when the stage choice throws (with Assets/3_Scripts/Runtime/GameManager/GameManager.cs:676-715) |
| GameFlow.GameManager.constructor | Assets/3_Scripts/Runtime/GameManager/GameManager.cs:232-236 | a fresh manager has no players and is on the title screen with every counter at its default (with Assets/3_Scripts/Runtime/GameManager/GameManager.cs:542-545) |
| GameFlow.GameManager.RemovePlayer | Assets/3_Scripts/Runtime/GameManager/GameManager.cs:242-271 | the manager's new state is `AfterRemovePlayer` of the old one |
| GameFlow.GameManager.GetUnusedColor | Assets/3_Scripts/Runtime/GameManager/GameManager.cs:350-372 | the loop that strikes out used colours returns the lowest unused colour, or -1 |
| GameFlow.GameManager.AddPlayer | Assets/3_Scripts/Runtime/GameManager/GameManager.cs:273-306 | the new state and the returned player are `AfterAddPlayer` of the old state |
| GameFlow.GameManager.PerformSetState | Assets/3_Scripts/Runtime/GameManager/GameManager.cs:695-715 | the new state is `AfterPerformSetState` of the old one |
| GameFlow.GameManager.SetState | Assets/3_Scripts/Runtime/GameManager/GameManager.cs:676-692 | the new state is `AfterSetState` of the old one |
| GameFlow.GameManager.WinStage | Assets/3_Scripts/Runtime/GameManager/GameManager.cs:648-666 | the new state is `AfterWinStage` of the old one |
| GameFlow.GameManager.GetUnplayedStages | Assets/3_Scripts/Runtime/GameManager/GameManager.cs:616-627 | the loop returns the unplayed list |
| GameFlow.GameManager.PlayStage | Assets/3_Scripts/Runtime/GameManager/GameManager.cs:629-645 | the new state is `AfterPlayStage` of the old one |
| GameFlow.GameManager.PlayRandomStage | Assets/3_Scripts/Runtime/GameManager/GameManager.cs:581-614 | `ok` is false exactly when `AfterPlayRandomStage` throws (an empty stage table), and then nothing has changed; otherwise the new state is its result |
| GameFlow.GameManager.PlayNewMatch | Assets/3_Scripts/Runtime/GameManager/GameManager.cs:550-567 | `ok` is false exactly when `AfterPlayNewMatch` throws, and then the state is the match reset; otherwise the new state is its result |
| GameFlow.GameManager.PlayNewRound | Assets/3_Scripts/Runtime/GameManager/GameManager.cs:569-579 | `ok` is false exactly when `AfterPlayNewRound` throws, and then only the round counter has moved; otherwise the new state is its result |
| GridMotion.SlideComponentShrinks | Assets/3_Scripts/Runtime/TileGrid/GridItem.cs:149-166 | a sliding component either snaps to zero (exactly when four fifths of it is under `VEL_MIN`) or becomes four fifths of itself; it keeps its sign and never grows, and a nonzero one strictly shrinks |
| GridMotion.SlideFramesBound | Assets/3_Scripts/Runtime/TileGrid/GridItem.cs:149-166 | while a component keeps moving every frame takes at least 0.002 off it, and a moving component is never under `VEL_MIN` |
| GridMotion.SlideSettles | Assets/3_Scripts/Runtime/TileGrid/GridItem.cs:149-166 | an offset nobody pushes is exactly zero after more than 500 times its size in frames |
| GridMotion.SlideEffect | Assets/3_Scripts/Runtime/TileGrid/GridItem.cs:149-167 | the offset along the pushed axis is kept, and the other component, when not zero, strictly shrinks toward zero without crossing it |
| GridMotion.ItemUpdateEffect | Assets/3_Scripts/Runtime/TileGrid/GridItem.cs:141-174 | an item on no tile is left alone; otherwise its push direction ends cleared and its offset does not grow; no tile and no other item changes, the item keeps its place, kind and variants, and one item per tile is kept |
| GridMotion.ObstacleLateUpdateEffect | Assets/3_Scripts/Runtime/TileGrid/Obstacle.cs:60-103 | an obstacle ends marked as being pushed exactly when it was pushed this frame, keeps a character's touch only then, has its push direction cleared and its offset slid, keeps its place, record and locks, and no other item or tile changes |
| GridTick.ApplyEventsOnce | Assets/3_Scripts/Runtime/GameManager/GameManager.cs:648-666 | however many wins a frame reports, the total score rises by at most one and only from play to the round result; with no win the manager is untouched (with Assets/3_Scripts/Runtime/TileGrid/GridProp.cs:60-68) |
| GridTick.UpdateItem | Assets/3_Scripts/Runtime/TileGrid/GridItem.cs:141-174 | an item's `Update` keeps the grid's links, shape, item kinds and one item per tile, raises the score by at most one, and out of play changes nothing but the offsets of props and obstacles (with Assets/3_Scripts/Runtime/TileGrid/GridCharacter.cs:124-302) |
| GridTick.UpdatePass | Assets/3_Scripts/Runtime/TileGrid/GridItem.cs:141-174 | the same for the `Update` phase over the first `n` items (with Assets/3_Scripts/Runtime/TileGrid/GridCharacter.cs:124-302) |
| GridTick.LateItem | Assets/3_Scripts/Runtime/TileGrid/GridItem.cs:178-181 | an item's `LateUpdate` keeps the grid's links, every place and the tiles, changes no other item, changes nothing but an obstacle, and leaves an obstacle on a tile with no push direction (with Assets/3_Scripts/Runtime/TileGrid/Obstacle.cs:60-103) |
| GridTick.LatePass | Assets/3_Scripts/Runtime/TileGrid/GridItem.cs:178-181 | the `LateUpdate` phase keeps the grid's links, every place and the tiles, and changes no item that is not an obstacle (with Assets/3_Scripts/Runtime/TileGrid/Obstacle.cs:60-103) |
| GridTick.UpdatePassQuiet | Assets/3_Scripts/Runtime/TileGrid/GridCharacter.cs:126-130 | out of play the `Update` phase reports nothing, keeps the manager, tiles and places, and leaves every character exactly as it was (with Assets/3_Scripts/Runtime/TileGrid/GridItem.cs:141-174) |
| GridTick.Tick | Assets/3_Scripts/Runtime/TileGrid/GridItem.cs:141-181 | a whole frame keeps the grid's links, tile records, item kinds and one item per tile, and raises the total score by at most one (with Assets/3_Scripts/Runtime/TileGrid/GridCharacter.cs:124-302, Assets/3_Scripts/Runtime/TileGrid/Obstacle.cs:60-103) |
| GridTick.TickOutOfPlay | Assets/3_Scripts/Runtime/TileGrid/GridCharacter.cs:126-130 | out of play a frame reports nothing and leaves the manager, the tiles, every place and every character as they were (with Assets/3_Scripts/Runtime/TileGrid/GridItem.cs:141-181, Assets/3_Scripts/Runtime/TileGrid/Obstacle.cs:60-103) |
| GridTick.LatePassSettles | Assets/3_Scripts/Runtime/TileGrid/Obstacle.cs:60-103 | after the `LateUpdate` phase over the first `n` items, each of them that is an obstacle on a tile has no push direction, and the later items are untouched |
| GridTick.LateItemSettles | Assets/3_Scripts/Runtime/TileGrid/Obstacle.cs:60-103 | one obstacle's `LateUpdate` extends the settled prefix by one and leaves the later items alone |
| GridTick.TickSettlesObstacles | Assets/3_Scripts/Runtime/TileGrid/Obstacle.cs:89-99 | a frame ends with every obstacle on a tile free of a push direction |
| GridRuntime.GridManager.constructor | Assets/3_Scripts/Runtime/TileGrid/GridManager.cs:79-131 | an unloaded grid has no tiles and no items |
| GridRuntime.GridManager.SetTileIndex | Assets/3_Scripts/Runtime/TileGrid/GridItem.cs:34-57 | updating the occupants in place leaves the grid as `GridWorld.SetTileIndex` of the old one |
| GridRuntime.GridManager.Push | Assets/3_Scripts/Runtime/TileGrid/GridItem.cs:92-138 | the recursive in-place push leaves the grid as `GridPush.Push` of the old one |
| GridRuntime.GridManager.ItemUpdate | Assets/3_Scripts/Runtime/TileGrid/GridItem.cs:141-174 | the in-place slide leaves the grid as `GridMotion.ItemUpdate` of the old one |
| GridRuntime.GridManager.ObstacleLateUpdate | Assets/3_Scripts/Runtime/TileGrid/Obstacle.cs:60-103 | the in-place settle leaves the grid as `GridMotion.ObstacleLateUpdate` of the old one |
| GridRuntime.GridManager.PrePush | Assets/3_Scripts/Runtime/TileGrid/GridItem.cs:86-89 | the grid and the returned notifications are those of `GridPush.PrePush` on the old grid (with Assets/3_Scripts/Runtime/TileGrid/GridProp.cs:60-68, Assets/3_Scripts/Runtime/TileGrid/Obstacle.cs:15-23, Assets/3_Scripts/Runtime/TileGrid/GridCharacter.cs:330-352) |
| GridRuntime.GridManager.Finish | Assets/3_Scripts/Runtime/TileGrid/GridCharacter.cs:288-302 | the grid and notifications are those of `GridCharacters.Finish` |
| GridRuntime.GridManager.LeanIn | Assets/3_Scripts/Runtime/TileGrid/GridCharacter.cs:246-278 | without changing anything, returns the offset the frame reaches along the facing and the character's fields after accelerating and, when leaning into an occupied tile, starting to push |
| GridRuntime.GridManager.Shove | Assets/3_Scripts/Runtime/TileGrid/GridCharacter.cs:246-281 | the grid and notifications are those of `GridCharacters.Shove` |
| GridRuntime.GridManager.Press | Assets/3_Scripts/Runtime/TileGrid/GridCharacter.cs:246-302 | the grid and notifications are those of `GridCharacters.Press` |
| GridRuntime.GridManager.Attempt | Assets/3_Scripts/Runtime/TileGrid/GridCharacter.cs:225-230 | the grid and notifications are those of `GridCharacters.Attempt` |
| GridRuntime.GridManager.Advance | Assets/3_Scripts/Runtime/TileGrid/GridCharacter.cs:223-286 | the grid and notifications are those of `GridCharacters.Advance` |
| GridRuntime.GridManager.CharacterUpdate | Assets/3_Scripts/Runtime/TileGrid/GridCharacter.cs:124-302 | the grid, the notifications and the null-reference flag are those of `GridCharacters.CharacterUpdate` |
| GridRuntime.GridManager.SetVariant | Assets/3_Scripts/Runtime/TileGrid/GridItem.cs:21-31 | the variant loop leaves the item's switches as `GridWorld.SetVariant` and changes nothing else |
| GridRuntime.GridManager.Relocate | Assets/3_Scripts/Runtime/TileGrid/GridCharacter.cs:72-76 | the grid is `GridCharacters.Relocate` of the old one |
| GridRuntime.GridManager.Place | Assets/3_Scripts/Runtime/TileGrid/GridCharacter.cs:70-95 | the grid and notifications are those of `GridCharacters.Place`, the corrected placement of the Findings table; the program's draw is `GridCharacters.PlaceAsWritten` |
| GridRuntime.GridManager.GenerateTiles | Assets/3_Scripts/Runtime/TileGrid/GridManager.cs:154-189 | the tile loop builds the grid of `TileGrid`: the first loadable record of each index, no items |
| GridRuntime.GridManager.GenerateProp | Assets/3_Scripts/Runtime/TileGrid/GridManager.cs:196-253 | one pass of the prop loop fails exactly when `AddProp` throws and otherwise leaves its grid |
| GridRuntime.GridManager.GenerateProps | Assets/3_Scripts/Runtime/TileGrid/GridManager.cs:191-254 | the prop loop fails exactly when `LoadProps` throws and otherwise leaves its grid |
| GridRuntime.GridManager.GenerateCharacter | Assets/3_Scripts/Runtime/TileGrid/GridManager.cs:268-289 | one pass of the character loop fails exactly when `AddCharacter` throws and otherwise leaves its grid, placing through the corrected `Place` |
| GridRuntime.GridManager.GenerateCharacters | Assets/3_Scripts/Runtime/TileGrid/GridManager.cs:257-291 | the character loop fails exactly when `CastCharacters` throws and otherwise leaves its grid, placing through the corrected `Place` |
| GridRuntime.GridManager.Load | Assets/3_Scripts/Runtime/TileGrid/GridManager.cs:139-304 | the load fails exactly when `GridLoad.Load` throws; otherwise the grid is its result (characters with the corrected facing draw) and the game manager enters the intro; a failed load leaves the game manager as it was |
| GridRuntime.GridManager.UpdateItem | Assets/3_Scripts/Runtime/TileGrid/GridItem.cs:141-174 | the grid, the game manager, the notifications and the faults are those of `GridTick.UpdateItem` (with Assets/3_Scripts/Runtime/TileGrid/GridCharacter.cs:124-302) |
| GridRuntime.GridManager.UpdateStep | Assets/3_Scripts/Runtime/TileGrid/GridItem.cs:141-174 | one item's `Update` extends the phase so far to `UpdatePass` over one more item (with Assets/3_Scripts/Runtime/TileGrid/GridCharacter.cs:124-302) |
| GridRuntime.GridManager.UpdatePhase | Assets/3_Scripts/Runtime/TileGrid/GridItem.cs:141-174 | the loop over every item leaves the grid, the manager, the notifications and the faults of `UpdatePass` (with Assets/3_Scripts/Runtime/TileGrid/GridCharacter.cs:124-302) |
| GridRuntime.GridManager.LateStep | Assets/3_Scripts/Runtime/TileGrid/Obstacle.cs:60-103 | one item's `LateUpdate` extends the phase so far to `LatePass` over one more item |
| GridRuntime.GridManager.LatePhase | Assets/3_Scripts/Runtime/TileGrid/GridItem.cs:178-181 | the loop over every item leaves the grid of `LatePass` (with Assets/3_Scripts/Runtime/TileGrid/Obstacle.cs:60-103) |
| GridRuntime.GridManager.Tick | Assets/3_Scripts/Runtime/TileGrid/GridItem.cs:141-181 | a frame leaves the grid, the manager, the notifications and the faults of `GridTick.Tick` (with Assets/3_Scripts/Runtime/TileGrid/GridCharacter.cs:124-302, Assets/3_Scripts/Runtime/TileGrid/Obstacle.cs:60-103) |
| GridRuntime.Deliver | Assets/3_Scripts/Runtime/TileGrid/GridProp.cs:60-68 | each reported win reaches `WinStage` in order, leaving the manager of `ApplyEvents` (with Assets/3_Scripts/Runtime/GameManager/GameManager.cs:648-666) |
| Lists.IndexOf | Assets/3_Scripts/Runtime/Other/Pool.cs:57 | the first position holding the element, or -1 exactly when it is absent (with Assets/3_Scripts/Runtime/Other/Pool.cs:126) |
| Pooling.PrefabIndex | Assets/3_Scripts/Runtime/Other/Pool.cs:47-68 | a null prefab gives -1 and changes nothing; a registered prefab gives its position; any other is appended and gives the new position, the instances untouched |
| Pooling.PrefabIndexValid | Assets/3_Scripts/Runtime/Other/Pool.cs:47-68 | registering a prefab keeps the pool's invariant: the registry never holds a prefab twice |
| Pooling.LoadState | Assets/3_Scripts/Runtime/Other/Pool.cs:71-113 | a load keeps the pool's invariant |
| Pooling.TakeFree | Assets/3_Scripts/Runtime/Other/Pool.cs:84-95 | taking a free instance removes the head of that prefab's free list and hands out the instance it names |
| Pooling.Instantiate | Assets/3_Scripts/Runtime/Other/Pool.cs:97-106 | a new instance is fresh, recorded with its prefab at the end of the lists |
| Pooling.UnloadState | Assets/3_Scripts/Runtime/Other/Pool.cs:116-141 | an unload keeps the pool's invariant |
| Pooling.LoadEffect | Assets/3_Scripts/Runtime/Other/Pool.cs:71-113 | the instance handed out is one of the pool's, made from the requested prefab: the head of the prefab's free list, which loses it, when there is one, and otherwise a brand-new instance |
| Pooling.DistinctIndex | Assets/3_Scripts/Runtime/Other/Pool.cs:126 | in a list without repetitions the lookup of an element finds its own position |
| Pooling.UnloadEffect | Assets/3_Scripts/Runtime/Other/Pool.cs:116-141 | a null or foreign instance changes nothing; a known one is appended to its prefab's free list and nothing else changes |
| Pooling.DoubleUnloadRepeats | Assets/3_Scripts/Runtime/Other/Pool.cs:133-137 | unloading an instance twice lists it as free twice, so two loads of its prefab hand out that same instance both times |
| Pooling.LoadMany | Assets/3_Scripts/Runtime/Other/Pool.cs:155-159 | `count` loads keep the invariant and hand out `count` instances |
| Pooling.UnloadAll | Assets/3_Scripts/Runtime/Other/Pool.cs:162-165 | unloading a list of instances keeps the invariant |
| Pooling.PreloadAsWrittenDoesNothing | Assets/3_Scripts/Runtime/Other/Pool.cs:144-152 | as written, the guard returns for every prefab, so preloading creates and frees no instance |
| Pooling.PreloadAsWrittenEmptyPool | Assets/3_Scripts/Runtime/Other/Pool.cs:144-152 | as written, an empty pool asked to preload three instances has none free afterwards |
| Pooling.PreloadFixedFrees | Assets/3_Scripts/Runtime/Other/Pool.cs:144-166 | with the guard corrected, preloading leaves at least `count` instances of the prefab free: the ones already free, or exactly `count` when there were fewer |
| Pooling.LoadExtends | Assets/3_Scripts/Runtime/Other/Pool.cs:71-113 | a load of a registered prefab only adds instances, hands out one made from that prefab and takes one entry off its free list when there is one |
| Pooling.LoadManyEffect | Assets/3_Scripts/Runtime/Other/Pool.cs:155-159 | `count` loads of a registered prefab only add instances, hand out instances made from it, and use up its free list first |
| Pooling.UnloadAllEffect | Assets/3_Scripts/Runtime/Other/Pool.cs:162-165 | unloading instances of one prefab adds one free entry each to its free list and changes no instance |
| Pooling.LoadThenUnload | Assets/3_Scripts/Runtime/Other/Pool.cs:155-165 | loading `count` instances and unloading them again leaves the larger of `count` and the old free count free |
| Pooling.Pool.constructor | Assets/3_Scripts/Runtime/Other/Pool.cs:8-13 | a new pool holds nothing and keeps the invariant |
| Pooling.Pool.GetPrefabIndex | Assets/3_Scripts/Runtime/Other/Pool.cs:47-68 | the pool's new state and the index are those of `PrefabIndex` |
| Pooling.Pool.Load | Assets/3_Scripts/Runtime/Other/Pool.cs:71-113 | the new state and the instance are those of `LoadState`, and the invariant is kept |
| Pooling.Pool.Unload | Assets/3_Scripts/Runtime/Other/Pool.cs:116-141 | the new state is `UnloadState` of the old one, and the invariant is kept |
| Pooling.Pool.LoadBatch | Assets/3_Scripts/Runtime/Other/Pool.cs:154-159 | the load loop leaves the state and the instances of `LoadMany` |
| Pooling.Pool.UnloadBatch | Assets/3_Scripts/Runtime/Other/Pool.cs:161-165 | the unload loop leaves the state of `UnloadAll` |
| Pooling.Pool.PreloadCorrected | Assets/3_Scripts/Runtime/Other/Pool.cs:144-166 | with the corrected guard, preloading leaves the state of `PreloadFixed`; a negative count loads nothing |

## Left out

- Rendering, GUI and tweening: the editor's drawing code, the panels, transforms, rotations applied to objects, `GetTilePosition`, the `LateUpdate` placement of transforms, effects, animation and audio.
- File and JSON I/O: loading and saving stages, the missing-file fallback, stage ids and deletion, and the game data and texture loading.
- Input devices: Rewired is replaced by a stick value per player. Only the clamp to [-1, 1] of `GetPlayerAxis` is kept.
- Randomness: the stage pick, the facing draw and the character pick are `draw` parameters. The random rotation given to a prop (`GridManager.cs:232-238`) only turns its transform and is not modelled.
- Unity's ordering of `Update` and `LateUpdate` across objects: the model fixes one order. Every item's `Update` runs in item-table order (props and obstacles in load order, then characters by player), then every `LateUpdate`.
- Singletons, delegates and callbacks other than the win, hit and state-change notifications, which are returned as events.
- The grid's `Unload` of old instances and the return of instances to the pool during a load; the tables are simply rebuilt.
- Floating-point rounding: offsets and velocities are exact reals. `GetPath`'s `FloorToInt` of a float division is integer division, and the two can differ for indices beyond float precision.
- GridPush.CanPush: the recursion is cut off after `fuel` steps, which callers set to the tile count. A chain that revisits tiles without reaching the start tile, which the source would follow forever, reads as not pushable.
- GridPush.Push: the same fuel bound. A chain longer than the tile count stops pushing ahead.
- GridLoad.AddCharacter: the character chosen for a player (`GridManager.cs:273-281`) and its prefab lookup by id (`GridManager.cs:307-322`) are given as a `Cast` per player.
- GridLoad.AddCharacter: places characters with the corrected facing draw `DrawnFacing` (`draw % 4 + 1`) of the Findings table, not the program's `Random.Range(0, 5) + 1`; they agree on draws 0 to 3 (`DrawnFacingMatchesBelowFour`), and the program's fifth draw, which gives the unnamed code 5 and a later null reference, is modelled only by `GridCharacters.PlaceAsWritten`.
- GridLoad.AddCharacterEffect: states a movement facing for a slot facing `None`, which holds of the corrected draw only; the program can give code 5.
- GridLoad.CastCharacters: places characters with the corrected facing draw `DrawnFacing` (`draw % 4 + 1`) of the Findings table, not the program's `Random.Range(0, 5) + 1`; they agree on draws 0 to 3 (`DrawnFacingMatchesBelowFour`), and the program's fifth draw, which gives the unnamed code 5 and a later null reference, is modelled only by `GridCharacters.PlaceAsWritten`.
- GridLoad.CastCharactersPlaces: states the corrected facing for a slot facing `None`, through `AddCharacterEffect`.
- GridLoad.LoadCharacters: places characters with the corrected facing draw `DrawnFacing` (`draw % 4 + 1`) of the Findings table, not the program's `Random.Range(0, 5) + 1`; they agree on draws 0 to 3 (`DrawnFacingMatchesBelowFour`), and the program's fifth draw, which gives the unnamed code 5 and a later null reference, is modelled only by `GridCharacters.PlaceAsWritten`.
- GridLoad.Load: places characters with the corrected facing draw `DrawnFacing` (`draw % 4 + 1`) of the Findings table, not the program's `Random.Range(0, 5) + 1`; they agree on draws 0 to 3 (`DrawnFacingMatchesBelowFour`), and the program's fifth draw, which gives the unnamed code 5 and a later null reference, is modelled only by `GridCharacters.PlaceAsWritten`.
- GridRuntime.GridManager.Place: places characters with the corrected facing draw `DrawnFacing` (`draw % 4 + 1`) of the Findings table, not the program's `Random.Range(0, 5) + 1`; they agree on draws 0 to 3 (`DrawnFacingMatchesBelowFour`), and the program's fifth draw, which gives the unnamed code 5 and a later null reference, is modelled only by `GridCharacters.PlaceAsWritten`.
- GridRuntime.GridManager.GenerateCharacter: places characters with the corrected facing draw `DrawnFacing` (`draw % 4 + 1`) of the Findings table, not the program's `Random.Range(0, 5) + 1`; they agree on draws 0 to 3 (`DrawnFacingMatchesBelowFour`), and the program's fifth draw, which gives the unnamed code 5 and a later null reference, is modelled only by `GridCharacters.PlaceAsWritten`.
- GridRuntime.GridManager.GenerateCharacters: places characters with the corrected facing draw `DrawnFacing` (`draw % 4 + 1`) of the Findings table, not the program's `Random.Range(0, 5) + 1`; they agree on draws 0 to 3 (`DrawnFacingMatchesBelowFour`), and the program's fifth draw, which gives the unnamed code 5 and a later null reference, is modelled only by `GridCharacters.PlaceAsWritten`.
- GridRuntime.GridManager.Load: requires one `Cast` per joined player, and places characters with the corrected facing draw `DrawnFacing` (`draw % 4 + 1`) of the Findings table, not the program's `Random.Range(0, 5) + 1`; they agree on draws 0 to 3 (`DrawnFacingMatchesBelowFour`), and the program's fifth draw, which gives the unnamed code 5 and a later null reference, is modelled only by `GridCharacters.PlaceAsWritten`.
- StageEditing.StageEditor.RemoveItems: requires both item arrays. The source throws on a null one.
- StageEditing.StageEditor.AddProp: requires both item arrays, for the same reason.
- StageEditing.StageEditor.AddPlayer: requires both item arrays and a player index on the roster. The source throws otherwise.
- StageEditing.StageEditor.EditTile: requires a positive column count, which the source divides by, and both item arrays when erasing a populated tile, whose props and spawns the source then dereferences.
- StageEditing.StageEditor.RecalculateAdjacents: requires a positive column count, for the same reason.
- GameFlow.AfterAddPlayer: requires a non-empty character table. The source takes the player count modulo its length.
- Pooling.Pool.Load: takes a non-null prefab. The source dereferences the prefab before its own null check, so a null one throws.
- Pooling.Pool.PreloadCorrected: takes a non-null prefab. The source reads `prefab.gameObject` (`Pool.cs:147`) before any guard, so a null one throws.
- Pooling.PreloadAsWritten: takes a non-null prefab, for the same reason.
- Pooling.PreloadFixed: takes a non-null prefab, for the same reason.

## Findings

| source | as written | input that shows it | evidently intended | confidence | as-written member | corrected member |
|---|---|---|---|---|---|---|
| Assets/3_Scripts/Runtime/TileGrid/GridCharacter.cs:89-93 | a character placed with no facing draws `Random.Range(0, 5) + 1` and casts it to `Direction`, giving 1..5, and 5 names no direction | a spawn slot facing `None` and the draw 4: the character faces code 5, and its first frame with vertical input looks up a neighbour that does not exist and dereferences null at line 227 | draw one of the four movement directions, `Random.Range(0, 4) + 1` | not executed | GridCharacters.PlaceAsWrittenCrashes | GridCharacters.PlaceNeverCrashes |
| Assets/3_Scripts/Runtime/Other/Pool.cs:148 | `Preload` returns when the prefab index is not -1, which holds for every non-null prefab, so it never preloads | an empty pool asked to preload three instances of a prefab has none free afterwards | return only for a null prefab (index -1), then load and unload `count` instances | not executed | Pooling.PreloadAsWrittenEmptyPool | Pooling.PreloadFixedFrees |
| Assets/3_Scripts/Editor/StageEditor.cs:710 | the prop loop looks up spawn slots before the spawn array is checked for null at line 723 | a stage with one in-grid win prop and a null spawn array: `HasPlayer` dereferences the null array, and "Stage players are null." is never returned | skip the spawn lookup while there is no spawn array, so that the null-array verdict is reached | not executed | StageValidation.NullPlayersCrashes | StageValidation.CheckStageGuardedCorrect |
