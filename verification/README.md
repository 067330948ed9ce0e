# Floorplan Studio editor core in Dafny

This project models the editing core of Floorplan Studio, a browser-based 2D floor-plan editor, and proves properties of that model. The model covers:

- **Object model** (`types.dfy`, module `FloorplanTypes`): the closed union of walls, doors, furniture and text notes; the scene record; the default tables for new objects; the door width presets. It also covers the partial update (`Partial<FloorplanObject>`) and how a spread (`{ ...obj, ...patch }`) overlays it on an object.
- **Undo history** (`undo_manager.dfy`, module `UndoManager`): the bounded linear history of 50 snapshots, its push with redo truncation and oldest-first eviction, undo, redo, clear and the count queries. Snapshots are immutable values, so the deep clone is the identity.
- **Scene store** (`scene_store.dfy`, module `SceneStore`): the `useFloorplanScene` hook as pure transitions over an `Editor`, which holds the live scene, the selection and the history. It covers:
  - the four add operations, with their numbered names
  - update, delete, delete-selected and reorder
  - undo and redo with the selection rule
  - new scene, load and the selected object
- **Canvas** (`canvas_stage.dfy`, module `CanvasStage`): the press/release state machine that draws walls, doors and furniture; immediate text placement; the rendered/draggable/click-selects flags of each object; the drag update; and the resize update with its minimum size of 5.
- **Edit-size dialog** (`edit_size.dfy`, module `EditSize`): the fields loaded from the selected object and the update its Apply button sends, including the wall thickness snapped with `Math.round(t / 4) * 4`.
- **Command palette** (`command_palette.dfy`, module `CommandPalette`): case-insensitive search over the commands, grouping of the matches by category, arrow/Enter navigation, and the resets on search change and close.
- **Editor page** (`tool_page.dfy`, module `ToolPage`): the keyboard shortcut dispatch with its precedence and focus gating, the layer panel's visibility and lock toggles, the "new plan" confirmation, and the wiring of canvas callbacks into the store.
- **Helpers** (`strings.dfy`, `wrappers.dfy`): decimal rendering of counters, ASCII case mapping, substring search, and `Option`.

Fresh ids, the clock's reading, the browser's confirmation answer and storage contents are parameters. The grid conversions `pxToUnits` and `unitsToPx` are imported by the canvas and the dialog but defined in a module that is not part of this model. They are therefore a pair of function values (`CanvasStage.Units`) passed in, and no equation about them is assumed. Coordinates, sizes, rotations and unit counts are `real`. `Math.round(x)` is `floor(x + 1/2)`.

The keyboard dispatch compares `KeyboardEvent.key` with the lower-case `"z"` in both its undo and redo tests (src/app/tool/page.tsx:160, 167). Browsers commonly report an upper-case `"Z"` while Shift is held, in which case Ctrl+Shift+Z matches neither test. The model follows the code as written: `Dispatch` maps only the key `"z"` to redo, and `"Z"` falls through to the later shortcuts.

## Model

| member | source | states |
|---|---|---|
| UndoManager.PushState | src/lib/undo/UndoManager.ts:23-39 | After a push the history is valid and the pushed snapshot is the current last entry, so redo is impossible. Below capacity the entries are those up to the old index plus the snapshot, and the index advances. At capacity the oldest is evicted and the index stays. |
| UndoManager.Undo | src/lib/undo/UndoManager.ts:45-52 | Succeeds exactly when the index is above 0: the index then drops by one and the previous entry is returned. Otherwise it returns nothing and leaves the history unchanged. Entries never change. |
| UndoManager.Redo | src/lib/undo/UndoManager.ts:58-65 | Succeeds exactly when the index is below the last entry: the index then rises by one and the next entry is returned. Otherwise it returns nothing and changes nothing. |
| UndoManager.Clear | src/lib/undo/UndoManager.ts:84-87 | Leaves an empty, valid history whose current state is null. |
| UndoManager.GetCurrentState | src/lib/undo/UndoManager.ts:92-97 | Returns an entry exactly when the index is in range, and then it is the entry at the index. |
| UndoManager.CanUndo | src/lib/undo/UndoManager.ts:70-72 | In a valid history, true exactly when some snapshot lies before the current one. |
| UndoManager.CanRedo | src/lib/undo/UndoManager.ts:77-79 | In a valid history, true exactly when some snapshot lies after the current one. |
| UndoManager.GetUndoCount | src/lib/undo/UndoManager.ts:102-104 | The number of snapshots before the current one; an empty history reports -1. |
| UndoManager.GetRedoCount | src/lib/undo/UndoManager.ts:109-111 | The number of snapshots after the current one, 0 for an empty history. |
| UndoManager.QueriesMatchMoves | src/lib/undo/UndoManager.ts:70-111 | `canUndo` holds iff `undo` succeeds iff the undo count is positive. Likewise for `canRedo`, `redo` and the redo count. |
| UndoManager.CountsPartitionHistory | src/lib/undo/UndoManager.ts:102-111 | In every valid state, including the empty one, undo count + redo count + 1 equals the number of entries. |
| UndoManager.UndoThenRedo | src/lib/undo/UndoManager.ts:45-65 | A successful undo followed by redo restores the same history and returns the snapshot that was current before the undo. |
| UndoManager.RedoThenUndo | src/lib/undo/UndoManager.ts:45-65 | A successful redo followed by undo restores the same history and returns the snapshot that was current before the redo. |
| UndoManager.PushAfterUndoDropsRedo | src/lib/undo/UndoManager.ts:23-52 | Pushing after an undo discards the undone branch: the earlier entries are kept, the length shrinks to the new index, and redo fails. |
| UndoManager.PushAll | src/lib/undo/UndoManager.ts:23-39 | A run of pushes keeps the history valid and leaves the last snapshot pushed as the current entry. |
| UndoManager.UndoTimes | src/lib/undo/UndoManager.ts:45-52 | Undoing n times lowers the index by n but not below 0, and never changes the entries. |
| UndoManager.PushAllKeepsPrefix | src/lib/undo/UndoManager.ts:23-39 | Pushes that stay within capacity advance the index by their number and keep every entry up to the starting index in place. |
| UndoManager.UndoInversePushes | src/lib/undo/UndoManager.ts:23-52 | After k pushes within capacity, k undos give back the snapshot that was current before them. |
| FloorplanTypes.Overlay | src/lib/floorplan/useFloorplanScene.ts:169 | Overlaying a partial update keeps the object's variant and id. Every field the variant has takes the update's value when the update carries it and keeps the old value otherwise. This covers the shared fields, the size of a sized object, a wall's thickness and colour, a door's swing and type, a piece of furniture's kind and colour, and a text's content, font size, style and colour. |
| FloorplanTypes.OverlayEmpty | src/lib/floorplan/useFloorplanScene.ts:169 | An update carrying no fields leaves the object unchanged. |
| FloorplanTypes.OverlayIdempotent | src/lib/floorplan/useFloorplanScene.ts:169 | Applying the same update twice equals applying it once. |
| FloorplanTypes.DefaultsAreFresh | src/lib/floorplan/types.ts:104-186 | The default wall, door and text and every furniture entry start unlocked, visible and unrotated. |
| FloorplanTypes.FurnitureDefaultsPositive | src/lib/floorplan/types.ts:126-175 | The furniture table is total over the five kinds, and every entry has positive width and height. |
| FloorplanTypes.DefaultWallShape | src/lib/floorplan/types.ts:104-113 | The default wall is 100 by 20 with a thickness of 20, which is a multiple of 4. |
| FloorplanTypes.DefaultDoorWidthIsPreset | src/lib/floorplan/types.ts:191-196 | The default door width, 80, is one of the door width presets. |
| FloorplanTypes.CountKind | src/lib/floorplan/useFloorplanScene.ts:70 | The count of objects of a kind never exceeds the number of objects. |
| FloorplanTypes.CountKindAppend | src/lib/floorplan/useFloorplanScene.ts:70 | Counting a kind distributes over concatenation of object lists. |
| FloorplanTypes.Find | src/lib/floorplan/useFloorplanScene.ts:196 | `find` returns nothing iff no object has the id. Otherwise it returns an object of the list with that id, and no earlier object has that id. |
| Strings.NatToString | src/lib/floorplan/useFloorplanScene.ts:74 | A counter renders as a non-empty string of decimal digits without a leading zero. |
| Strings.NatToStringRoundTrip | src/lib/floorplan/useFloorplanScene.ts:74 | Reading back the digits of a rendered counter gives the counter. |
| Strings.NatToStringInjective | src/lib/floorplan/useFloorplanScene.ts:74 | Distinct counters render as distinct strings. |
| Strings.ToLower | src/components/tool/CommandPalette.tsx:206 | Lower-casing keeps the length and maps each character through the ASCII lower-case map. |
| Strings.ToLowerIdempotent | src/components/tool/CommandPalette.tsx:206 | Lower-casing twice equals lower-casing once, and no ASCII capital is left. |
| Strings.Capitalize | src/lib/floorplan/useFloorplanScene.ts:124 | Capitalising upper-cases the first character and keeps the rest. |
| Strings.Contains | src/components/tool/CommandPalette.tsx:208-211 | `includes` holds iff the needle occurs at some start position of the haystack. |
| Strings.EmptyIsContained | src/components/tool/CommandPalette.tsx:208-211 | The empty string is contained in every string. |
| SceneStore.CreateEmptyScene | src/lib/floorplan/useFloorplanScene.ts:26-34 | A new scene is named "Untitled Floorplan", has no objects and the given id, and takes its two timestamps from two separate clock readings. |
| SceneStore.Init | src/lib/floorplan/useFloorplanScene.ts:40-47 | The first render holds the initial scene as the only history entry, with nothing selected and neither undo nor redo possible. |
| SceneStore.UpdateScene | src/lib/floorplan/useFloorplanScene.ts:52-62 | Every update stamps `updatedAt`, pushes exactly one snapshot (the new scene), keeps the selection and keeps the store invariant. |
| SceneStore.AddWall | src/lib/floorplan/useFloorplanScene.ts:67-87 | Appends one wall and keeps the earlier objects. The wall has the given id, position and size and the default thickness, colour and flags. It is named `Wall N`, where N is 1 + the walls before. The call records one history entry. |
| SceneStore.AddDoor | src/lib/floorplan/useFloorplanScene.ts:92-110 | Appends one 80 by 10, right-swinging single door at the given position, named `Door N` by the door count. The call records one history entry. |
| SceneStore.AddFurniture | src/lib/floorplan/useFloorplanScene.ts:115-137 | Appends one piece of the given kind with that kind's default size and colour. Its name is the capitalised kind plus 1 + the count of all furniture. The call records one history entry. |
| SceneStore.AddText | src/lib/floorplan/useFloorplanScene.ts:142-160 | Appends one "New note" text of size 16 in normal style, named `Note N` by the text count, coloured with the default text colour. The call records one history entry. |
| SceneStore.MapUpdate | src/lib/floorplan/useFloorplanScene.ts:169 | Keeps the length. Each object with the id gets the update overlaid, and every other object is unchanged. Every position keeps its id and kind, and an absent id leaves the list as it was. |
| SceneStore.UpdateObject | src/lib/floorplan/useFloorplanScene.ts:165-173 | Keeps the length, the order and every object with another id, and overlays the update on the matching ones. It records one history entry even when no object has the id. |
| SceneStore.RemoveId | src/lib/floorplan/useFloorplanScene.ts:182 | The survivors are exactly the objects with another id, and the list is unchanged when the id is absent. |
| SceneStore.RemoveIdAppend | src/lib/floorplan/useFloorplanScene.ts:182 | Filtering distributes over concatenation, so the survivors keep their order. |
| SceneStore.DeleteObject | src/lib/floorplan/useFloorplanScene.ts:178-189 | Removes every object with the id and records one history entry. The selection is cleared iff it was that id; otherwise it is kept. |
| SceneStore.DeleteSelected | src/lib/floorplan/useFloorplanScene.ts:194-201 | Leaves the editor unchanged (no history entry) iff nothing truthy is selected, or the selected id is absent, or the object is locked. Otherwise it is the deletion of the selected id. |
| SceneStore.ReorderObjects | src/lib/floorplan/useFloorplanScene.ts:206-214 | The scene takes exactly the new order, and the call records one history entry. |
| SceneStore.Undo | src/lib/floorplan/useFloorplanScene.ts:219-228 | When undo is possible, the scene becomes the previous snapshot. The selection is cleared iff it is truthy and absent from that snapshot, and otherwise kept. When undo is impossible nothing changes. The history is left exactly as the undo manager's undo leaves it. |
| SceneStore.Redo | src/lib/floorplan/useFloorplanScene.ts:233-238 | When redo is possible, the scene becomes the next snapshot. The selection is never touched, and when redo is impossible nothing changes. The history is left exactly as the undo manager's redo leaves it. |
| SceneStore.NewScene | src/lib/floorplan/useFloorplanScene.ts:287-293 | Starts over with an empty scene as the only history entry and nothing selected, so neither undo nor redo is possible. |
| SceneStore.LoadScene | src/lib/floorplan/useFloorplanScene.ts:266-282 | Reports success iff stored data was present. On success the stored scene is the only history entry and the selection is cleared. On failure nothing changes. |
| SceneStore.SelectedObject | src/lib/floorplan/useFloorplanScene.ts:298-300 | Returns an object iff the selection is truthy and names an object in the scene. The returned object carries that id and is the first object in the list that does, as `find` returns. |
| SceneStore.SetSelectedId | src/lib/floorplan/useFloorplanScene.ts:41 | Selecting changes neither the scene nor the history. |
| SceneStore.UndoAfterEdit | src/lib/floorplan/useFloorplanScene.ts:219-228 | Right after any recorded edit undo is possible and restores the scene from before the edit, even when the push evicted the oldest entry. |
| SceneStore.RedoAfterUndoAfterEdit | src/lib/floorplan/useFloorplanScene.ts:219-238 | Redo after that undo brings the edited scene back. |
| SceneStore.WallNameCountsWalls | src/lib/floorplan/useFloorplanScene.ts:70-74 | A new wall's name is `Wall ` followed by digits that read back as 1 + the number of walls before it. |
| SceneStore.AddWallCounts | src/lib/floorplan/useFloorplanScene.ts:67-87 | Adding a wall raises the wall count by one and leaves the count of every other kind unchanged. |
| SceneStore.FurnitureNumberedAcrossKinds | src/lib/floorplan/useFloorplanScene.ts:118-126 | In an empty scene, a bed is named `Bed 1` and a sofa added after it is named `Sofa 2`. |
| SceneStore.TwoEditsUndoRedo | src/lib/floorplan/useFloorplanScene.ts:219-238 | After two recorded edits on a fresh history, undo gives the middle scene. A second undo gives the starting scene, after which undo is no longer possible, and two redos give the last scene. |
| SceneStore.WallDoorUndoRedoSession | src/lib/floorplan/useFloorplanScene.ts:67-238 | From an empty scene: a wall named `Wall 1`, then a door named `Door 1`. Two undos step back to the one-wall scene and then the empty one, where undo is no longer possible. Two redos restore the two-object scene. |
| CanvasStage.MouseDown | src/components/tool/CanvasStage.tsx:158-228 | The pan tool or the middle button starts panning and does nothing else. Otherwise only a press on the empty stage acts, and it first clears the selection. With a pointer position, the wall, door and furniture tools start their own kind of draft at the pointer, and the text tool adds text at the pointer at once. Any change to the draft comes from such a press. Exactly one call is made (the selection clear) on the empty stage, or two for a text placement; otherwise none. |
| CanvasStage.DraftFor | src/components/tool/CanvasStage.tsx:181-221 | Exactly the wall, door and furniture tools start a draft, at the given point and of their own kind. A furniture draft remembers the furniture kind selected at the press. |
| CanvasStage.Normalize | src/components/tool/CanvasStage.tsx:279-283 | The drawn rectangle has non-negative extent, its origin lies at or before both points, and its edges are exactly the two points' coordinates. |
| CanvasStage.NormalizeSymmetric | src/components/tool/CanvasStage.tsx:279-283 | The rectangle does not depend on the drawing direction. |
| CanvasStage.CommitDraft | src/components/tool/CanvasStage.tsx:279-300 | A finished draft makes one add call iff both unit counts are positive. Walls and doors pass the origin and the unit-converted size; furniture passes only the origin. |
| CanvasStage.MouseUp | src/components/tool/CanvasStage.tsx:264-307 | Release ends panning and any draft. It commits the draft only when a pointer position is available. |
| CanvasStage.OnlyDrawingToolsCommit | src/components/tool/CanvasStage.tsx:158-307 | A press and release with a tool other than wall, door or furniture never makes an add call on release. |
| CanvasStage.WallPressRelease | src/components/tool/CanvasStage.tsx:158-307 | A wall-tool press from rest only clears the selection and starts a wall draft at the pointer. The release returns to rest and adds exactly one wall over the normalized rectangle, sized by the unit round trip, iff both unit counts are positive. |
| CanvasStage.RenderObject | src/components/tool/CanvasStage.tsx:366-387 | An object renders iff it is visible. It is draggable iff the tool is select and it is unlocked, and a click selects it iff the tool is select. |
| CanvasStage.RenderObjects | src/components/tool/CanvasStage.tsx:366-370 | Every visible object is rendered, and every rendered entry comes from an object of the scene. |
| CanvasStage.RenderObjectsSingle | src/components/tool/CanvasStage.tsx:366-370 | A single object renders as its own entry when visible and as nothing when hidden. |
| CanvasStage.RenderObjectsAppend | src/components/tool/CanvasStage.tsx:578 | Rendering distributes over concatenation. With the single-object case, this fixes the output as the visible objects' entries in array order, which is the paint order. |
| CanvasStage.NothingDraggableOutsideSelect | src/components/tool/CanvasStage.tsx:370 | Only under the select tool can anything be dragged, and only a visible, unlocked object. |
| CanvasStage.ClampSize | src/components/tool/CanvasStage.tsx:403-404 | `Math.max(5, v)` is at least 5, is v or 5, and is v when v is at least 5. |
| CanvasStage.OnTransformEnd | src/components/tool/CanvasStage.tsx:391-545 | A resize sends a move and rotation for every object. Walls scale the node's size and doors and furniture scale their stored size, both clamped to at least 5. Text gets no size, and no other field is sent. |
| CanvasStage.TransformedSizeAtLeastFive | src/components/tool/CanvasStage.tsx:435-436 | Once the resize update is applied, a wall, door or piece of furniture is at least 5 by 5. |
| CanvasStage.OnDragEnd | src/components/tool/CanvasStage.tsx:388-390 | A drag sends only the new position, and applying it only moves the object. |
| EditSize.Round | src/components/tool/EditSizeModal.tsx:66 | `Math.round` lands within one half of its argument, rounding halves up. |
| EditSize.SnapThickness | src/components/tool/EditSizeModal.tsx:66 | The sent thickness is a multiple of 4 within 2 of the field's value. |
| EditSize.SnapThicknessIdempotent | src/components/tool/EditSizeModal.tsx:66 | Snapping an already snapped thickness changes nothing. |
| EditSize.SnapThicknessTiesUp | src/components/tool/EditSizeModal.tsx:66 | A thickness exactly between two multiples of 4 snaps to the larger one. |
| EditSize.SnapThicknessOnIntegers | src/components/tool/EditSizeModal.tsx:66 | On whole numbers the snap equals 4 * floor((t + 2) / 4). |
| EditSize.LoadFields | src/components/tool/EditSizeModal.tsx:34-46 | With no object the fields are unchanged. Otherwise the rotation is always loaded, the unit sizes only for sized kinds, and the thickness only for walls; the other fields keep their values. |
| EditSize.HandleApply | src/components/tool/EditSizeModal.tsx:48-71 | With no object, no update is sent and the dialog stays open. Otherwise exactly one update goes to the object's id and the dialog closes. The update carries the rotation, the unit-converted size iff the kind is sized, and, iff it is a wall, the thickness field snapped to the nearest multiple of 4, and nothing else. |
| EditSize.LoadThenApply | src/components/tool/EditSizeModal.tsx:34-71 | Opening the dialog and applying at once keeps the rotation and a multiple-of-4 thickness. The size passes through a units round trip, and a text note is left unchanged. |
| CommandPalette.KeepMatching | src/components/tool/CommandPalette.tsx:207-214 | Keeps exactly the commands whose title, description, category or a keyword contains the query. |
| CommandPalette.Matches | src/components/tool/CommandPalette.tsx:208-213 | Every command matches the empty query: a match needs the query in its title, description, category or a keyword, and each of those contains the empty string. |
| CommandPalette.KeepMatchingAppend | src/components/tool/CommandPalette.tsx:207-214 | Filtering distributes over concatenation, so the original order is kept. |
| CommandPalette.FilterCommands | src/components/tool/CommandPalette.tsx:203-215 | An empty search returns the command list unchanged. Otherwise a command is kept iff it matches the lower-cased search. |
| CommandPalette.FilterIgnoresCase | src/components/tool/CommandPalette.tsx:206 | A search and its lower-cased form select the same commands. |
| CommandPalette.InCategory | src/components/tool/CommandPalette.tsx:218-227 | Selects exactly the commands of one category. |
| CommandPalette.FirstOf | src/components/tool/CommandPalette.tsx:220-225 | The position of the first command of a category, or the list length when none has it: every earlier command has another category. |
| CommandPalette.GroupIndex | src/components/tool/CommandPalette.tsx:221 | Finds the group of a category, or reports that no group has it. |
| CommandPalette.AddToGroups | src/components/tool/CommandPalette.tsx:220-225 | Adding a command opens one new group at the end iff no group has its category, and that group holds just the command. Otherwise the group count is unchanged and groups of other categories are untouched. |
| CommandPalette.InCategoryAbsent | src/components/tool/CommandPalette.tsx:218-227 | A category that no command has collects no commands. |
| CommandPalette.InCategorySnoc | src/components/tool/CommandPalette.tsx:220-225 | Appending a command extends its own category's list by that command and leaves every other category's list unchanged. |
| CommandPalette.OpenGroupStep | src/components/tool/CommandPalette.tsx:221-223 | When no group has the command's category, opening a new group for it keeps the grouping exact. |
| CommandPalette.ExtendGroupStep | src/components/tool/CommandPalette.tsx:224 | When a group has the command's category, pushing the command onto it keeps the grouping exact. |
| CommandPalette.NewCategoryFirstAt | src/components/tool/CommandPalette.tsx:221-223 | A category that no group of the first i commands has first appears at position i when command i has it. |
| CommandPalette.OpenGroupKeepsOrder | src/components/tool/CommandPalette.tsx:221-223 | Opening a last group for a category first seen at position i keeps the groups in first-appearance order. |
| CommandPalette.ExtendGroupKeepsOrder | src/components/tool/CommandPalette.tsx:224 | Pushing onto an existing group changes no category, so the first-appearance order is kept. |
| CommandPalette.AddToGroupsKeepsOrder | src/components/tool/CommandPalette.tsx:220-225 | Grouping one more command keeps the groups in the order of their categories' first appearance. |
| CommandPalette.GroupStep | src/components/tool/CommandPalette.tsx:220-225 | One step of the `forEach` keeps both the exact grouping and the first-appearance order. |
| CommandPalette.AddToGroupsStep | src/components/tool/CommandPalette.tsx:220-225 | Adding one command to an exact grouping gives the exact grouping of the longer list. |
| CommandPalette.GroupCommands | src/components/tool/CommandPalette.tsx:218-227 | The groups have distinct categories and none is empty. Each holds exactly its category's commands in filtered order, and every command's category has a group. The groups are listed in the order in which their categories first appear in the filtered list. |
| CommandPalette.HandleKeyDown | src/components/tool/CommandPalette.tsx:230-243 | ArrowDown sets the index to min(index + 1, count - 1) and ArrowUp to max(index - 1, 0). Enter runs the command at the index iff the index is valid; no other key runs anything. |
| CommandPalette.NavigationStaysInRange | src/components/tool/CommandPalette.tsx:230-243 | The keys keep the index within the reachable range. With no matches nothing runs, and with matches Enter always runs one. |
| CommandPalette.SearchChanged | src/components/tool/CommandPalette.tsx:265-268 | Editing the search sets the text and resets the index to 0. |
| CommandPalette.HandleClose | src/components/tool/CommandPalette.tsx:246-250 | Closing resets the search to empty and the index to 0. |
| CommandPalette.PressKey | src/components/tool/CommandPalette.tsx:230-243 | A key press keeps the search, and any command it runs is among the current matches. |
| CommandPalette.PaletteIndexInvariant | src/components/tool/CommandPalette.tsx:230-268 | Whatever is typed, pressed or closed, the index stays in the reachable range for the current matches. |
| CommandPalette.NoMatchesArrowDownThenEnter | src/components/tool/CommandPalette.tsx:231-241 | With no matches, ArrowDown from 0 drives the index to -1, and Enter then runs nothing. |
| ToolPage.Dispatch | src/app/tool/page.tsx:144-238 | Ctrl/Cmd+k, +s and +z (redo with Shift) win whatever has focus. Delete/Backspace deletes only outside text fields and never falls through. Shift+G opens edit-size iff something is selected, and G without Shift toggles the grid. `+`/`=` raise and `-`/`_` lower the grid opacity. The letters v/w/d/f/t set their tool in either case. All of these act outside text fields only. |
| ToolPage.ToolLettersIgnoreCase | src/app/tool/page.tsx:220-236 | Each of the capitals V, W, D, F and T dispatches exactly as its lower-case letter does, selecting that letter's tool. |
| ToolPage.Perform | src/app/tool/page.tsx:144-238 | Each shortcut does exactly its one effect (undo, redo, delete, tool, palette, dialog) and leaves everything else alone. |
| ToolPage.KeyDown | src/app/tool/page.tsx:144-238 | A key pressed in a text field without Ctrl or Cmd leaves the page unchanged. |
| ToolPage.DeleteWhileTypingIsIgnored | src/app/tool/page.tsx:174-183 | Delete or Backspace in a text field never deletes anything. |
| ToolPage.ToggleVisibility | src/app/tool/page.tsx:245-253 | When the id is absent, nothing changes and no history is recorded. Otherwise one recorded update flips `isVisible` of the matching objects to the negation of the first match's value, and leaves every other object alone. |
| ToolPage.ToggleLock | src/app/tool/page.tsx:256-264 | When the id is absent, nothing changes and no history is recorded. Otherwise one recorded update flips `isLocked` of the matching objects to the negation of the first match's value, and leaves every other object alone. |
| ToolPage.FindUnique | src/app/tool/page.tsx:258 | With unique ids, `find` returns the one object carrying the id. |
| ToolPage.LockSetKeepsIds | src/app/tool/page.tsx:256-264 | Setting the lock flag keeps every object's id. |
| ToolPage.LockSetTwice | src/app/tool/page.tsx:256-264 | With unique ids, setting the lock flag to the negation of the found value twice restores the objects. |
| ToolPage.ToggleLockTwice | src/app/tool/page.tsx:256-264 | With unique ids, toggling the lock twice restores the scene's objects. |
| ToolPage.HandleNew | src/app/tool/page.tsx:119-132 | Starts a new scene at once when the scene is empty. Otherwise it does so only when confirmed, and leaves the editor unchanged when declined. |
| ToolPage.ApplyCanvasCall | src/app/tool/page.tsx:298-313 | A selection call only sets the selection. An add call records one history entry and appends one object after the existing ones. |
| ToolPage.ApplyCanvasCalls | src/app/tool/page.tsx:298-313 | Applying canvas calls keeps the store invariant, and no calls change nothing. |
| ToolPage.DegenerateDrawAddsNothing | src/components/tool/CanvasStage.tsx:286-292 | A draw whose width or height converts to no positive unit count adds no object and records no history entry. |
| ToolPage.WallDrawAddsOneWall | src/components/tool/CanvasStage.tsx:279-294 | A wall draw with positive unit counts appends exactly one wall at the rectangle's origin, sized by the unit round trip, as one history entry. |
| ToolPage.DoorDrawKeepsDefaultSize | src/app/tool/page.tsx:310 | A drawn door always gets the default 80 by 10 size, because `addDoor` takes only a position. |

## Left out

- Rendering, the Konva stage and Mantine widgets, the theme, and the static pages and shell are presentation, with no state to model.
- Viewport zoom and pan and the screen-to-canvas transform are floating-point view state. The model's pointer positions are already canvas coordinates.
- The mouse-move preview changes only what is drawn. The committed rectangle is recomputed on release, which is modelled.
- Export (images, PDF, clipboard) is I/O.
- Saving to local storage is I/O: the save shortcut is dispatched but has no effect in the model. Loading takes what storage held as an optional scene, with an unreadable value counting as absent.
- `pxToUnits`, `unitsToPx`, `snapToBase4` and the grid configuration are defined in a module that is not part of this model. The conversions are uninterpreted parameters, and `snapToBase4` is not used on the modelled paths.
- The grid toggle and grid opacity shortcuts are dispatched with their exact precedence, but their effect is not modelled. They act on a grid setting that the scene type shown does not have.
- Id generation and timestamps come from the platform (random source, clock). They are passed in, and id uniqueness is not assumed except where a lemma states it as a precondition.
- The deep clone of snapshots is the identity on immutable values. JSON quirks (NaN, undefined fields) are out of scope.
- React mechanics are not modelled: stale closures, render-time reads of `canUndo` and `canRedo`, and a possible double call of a state updater in strict mode. Each operation runs exactly once.
- Case mapping covers ASCII letters only. Non-ASCII characters pass through unchanged.
- FloorplanTypes.Overlay: a patch field the variant does not have is dropped. JavaScript would keep it as a stray property that nothing reads.
- CommandPalette.HandleKeyDown: a command's action is reported as the command run, not performed. The commands' own actions (tool change, zoom, new, save, load, help) and the fixed command list are left out.
- CommandPalette.GroupCommands: the groups are proved to be in order of first appearance, which is JavaScript's object key order for non-integer keys. Integer-like category names, which JavaScript would list first, are not modelled; the command list has none.
- The layers and properties panels are field wiring, and `reorderObjects` has no caller in the panels. The reorder operation itself is modelled.
- Callback props that are optional on the canvas (`onAddWall` and the others) are assumed present, as the editor page always passes them.
