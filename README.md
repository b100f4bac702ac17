# py-k-mon overworld, modelled in Dafny

This project models the tick-driven core of the py-k-mon overworld engine
and proves properties of the model. That core covers:

- the trainer's movement state machine: snap to the grid, "tap to turn, hold
  to walk", bumping into walls, and stepping on from one tile to the next;
- the entity animation counter that it shares with every sprite;
- the area's passability grid and its y-sorted doodads;
- the camera that keeps the trainer centred without showing past the map;
- the draw order around the trainer, and the one-tick foreground overlay;
- the W/A/S/D key stack of the stand-alone loop, and the controller buttons;
- the menu cursor;
- the dialog box's typewriter and its word wrap and letter layout.

Every position is an integer number of tenths of a tile (`Vector.Tenths`).
The walking step (0.1 tile), the running step (0.2 tile) and the snap
distance (0.1 tile) are therefore exact. `Vector2.move_towards` is modelled
for positions that differ along one axis. The trainer's invariant ensures
that its position and its target are always so related.

The files follow the source. Each Python file has one Dafny module:

| Python file | Dafny file | module |
|---|---|---|
| trainer.py | trainer.dfy | `Trainers` |
| entity.py | entity.dfy | `Entities` |
| area.py | area.dfy | `Areas` |
| doodad.py | doodad.dfy | `Doodads` |
| main.py | main.dfy | `Overworld` |
| game.py | game.dfy | `Games` |
| controller.py | controller.dfy | `Controllers` |
| menu.py | menu.dfy | `Menus` |
| helpers.py | helpers.dfy | `Helpers` |
| dialog.py | dialog.dfy | `Dialogs` |

Three more modules support these:

- `Vector` (vector.dfy) stands in for `Vector2`.
- `Keys` (keys.dfy) holds the pygame key codes.
- `Wrappers` holds `Option`.

Objects whose fields the source updates in place are classes in the model:
`Entity`, `Trainer`, `Button`, `Controller`, `Game`, `Menu` and `Dialog`.
`Entity`, `Trainer` and `Dialog` have a value `State()`, and each of their
methods is proved to leave `State() == F(old(State()))`, where `F` is a
specification function about which the lemmas are proved. The methods of
`Button`, `Controller`, `Game` and `Menu` state their new fields one by one
instead. Doodads and areas are values, because nothing in the core changes
them except the foreground flag. Setting that flag is modelled as computing
the new doodad list.

Where the source raises, the model returns `None` or `ok == false`. The
source does not guard against those errors, so they are not
preconditions. The cases are:

- an `IndexError` from a tile lookup past the end of the grid;
- a `ValueError` from releasing a key that is not on the stack;
- a `StopIteration` from `Controller.button`;
- an `IndexError` in the dialog's page and letter lookups.

Some behaviour of the code is easy to misread; the model follows the code:

- **Tile lookup.** `Area.is_passable` has no bounds check. A negative tile
  index reads from the opposite edge, as Python lists do
  (`Areas.LeftOfMapWraps`), and an index at or past the end raises.
- **Frame reset.** `set_action` resets only the frame counter, not the
  frame index. `Trainers.SheetsConsistent` is the condition on the sprite
  sheets that keeps the kept frame index valid.
- **Animation rate.** The trainer's animation advances twice per tick:
  once in `Trainer.update` and once in `Entity.draw`
  (`Trainers.TwoAdvancesPerTick`).
- **Draw order.** Doodads with y below the trainer's y are drawn behind
  it, and those with y equal or greater in front.
- **Opposite keys.** With main.py's key stack, the newer of two held
  opposite keys gives no direction (`Overworld.OppositesCancel`).
  `Controller.get_dpad_input` instead takes the first held button in the
  fixed order UP, DOWN, LEFT, RIGHT, whichever was pressed last
  (`Controllers.Controller.DpadPriority`).

## Model

| member | source | states |
|---|---|---|
| Vector.StepToward | trainer.py:37-42 | one coordinate of `move_towards`: moves at most `step`, never passes the target, and lands on it when it is within `step` |
| Vector.MoveTowards | trainer.py:37-42 | for aligned positions: the gap shrinks by `step`, or to 0 when it was no larger; the result lands on the target exactly when the gap was within `step` |
| Vector.TruncTile | area.py:28 | Python's `int()` on a coordinate: the tile index truncated toward zero, bracketed on both sides for either sign |
| Entities.Initial | entity.py:13-25 | a new entity stands facing down, with frame 0, counter 0, delay 16, offset 0, and no image or rectangle |
| Entities.Advance | entity.py:27-34 | the counter counts; exactly when it equals the delay it restarts and the frame moves on, wrapping to 0 exactly when it equals the frame count and growing past it when it is already beyond; `frame < n` and `counter < delay` are preserved; nothing else changes |
| Entities.PastDelayNeverWraps | entity.py:28-29 | because the test is an equality, a counter at or past the delay never restarts: `k` advances only add `k` to it |
| Entities.AdvanceCycle | entity.py:27-34 | from counter `c < d`, the next `d - c - 1` advances only count, and advance `d - c` moves the frame on and restarts the counter |
| Entities.Select | entity.py:44-47 | `draw` selects image `(action, facing, frame)` and places the rectangle at the grid position shifted by `gridOffsetY` tiles |
| Entities.DrawStep | entity.py:43-49 | `draw` is that selection followed by exactly one `advance_animation`; the frame index stays within the sheet; position, action and facing are kept |
| Entities.Coords | entity.py:40-41 | 16 pixels per tile on both axes |
| Entities.Center | entity.py:36-38 | `coords` plus half the rectangle's width, minus half its height |
| Entities.IsNearby | entity.py:54-58 | holds exactly when both axis distances are within `threshold` tiles; the default is 96 |
| Entities.Entity.AdvanceAnimation | entity.py:27-34 | the object's new state is `Advance` of the old, with that action's and facing's frame count |
| Entities.Entity.Draw | entity.py:43-49 | the object's new state is `DrawStep` of the old |
| Entities.Entity.constructor | entity.py:10-25 | the new object's state is `Initial` of the location |
| Trainers.Snapped | trainer.py:119-129 | each axis within 0.1 tile of the target takes the target's value; any other axis and every other field are kept |
| Trainers.SnapIdempotent | trainer.py:119-129 | snapping twice is snapping once |
| Trainers.WithAction | trainer.py:92-94 | `set_action` sets the action and restarts the frame counter, and does not touch the frame index |
| Trainers.Stopped | trainer.py:131-136 | `stop` leaves the trainer standing, with frame, frame counter and hold counter 0 and the target at its position |
| Trainers.StopIdempotent | trainer.py:131-136 | a second `stop` changes nothing |
| Trainers.Motion | trainer.py:34-42 | walking moves 0.1 tile with frame delay 7, running 0.2 tile with delay 4, never past the target; standing moves nothing |
| Trainers.Tick | trainer.py:138-142 | a tick that does not raise preserves the trainer's invariant |
| Trainers.Spawned | trainer.py:12-28 | a new trainer stands on its start tile, which is its target, facing down, with frame delay 7 and sprite offset -1 tile, and drawn once; it meets the invariant |
| Trainers.SpriteCoords | trainer.py:30-32 | the sprite is drawn `gridOffsetY` tiles (16 pixels each) off the entity's pixel position |
| Trainers.Trainer.Coords | trainer.py:30-32 | the entity's pixel position with y moved by 16 pixels per tile of sprite offset |
| Trainers.Trainer.Center | entity.py:36-38 | the inherited `center`: the entity's pixel position plus half the rectangle's width and minus half its height, without the sprite offset |
| Trainers.Moved | trainer.py:74-90 | `None` exactly when the tile ahead is past the end of the grid; otherwise walking (running with B), counter restarted, everything else kept, the target the tile ahead when passable and the current position when not |
| Trainers.AfterInput | trainer.py:96-114 | mid-step it changes nothing; from standing or on arrival no direction stops; from standing a hold below the delay only turns and counts; it raises only for a direction whose next tile is past the grid |
| Trainers.Drawn | trainer.py:34-44 | the motion, then the entity draw: target, hold count, action and facing kept, the position `Motion` gives, the image of the current frame, and the frame left within the sheet |
| Trainers.SpriteDrawnAboveGrid | trainer.py:21 | for a valid trainer, the sprite is drawn 16 pixels above its grid position |
| Trainers.StandWithoutInput | trainer.py:98-100 | standing with no direction, the input decision is `stop`, which clears only the frame, its counter and the hold counter |
| Trainers.TapTurnsOnly | trainer.py:101-106 | standing with a direction: it turns on the same tick and counts the hold; before the count reaches 3 nothing moves, whatever the previous facing |
| Trainers.HoldStartsStep | trainer.py:74-90 | on the tick the hold count reaches 3 the trainer walks (or runs, with B) toward the neighbouring tile in its facing when that tile is passable, and bumps in place when it is not; the tick raises exactly when that tile lies past the grid |
| Trainers.MovingIgnoresInput | trainer.py:108-109 | while more than 0.1 tile from its target, every input gives the same tick, which keeps action, facing and target and closes the gap by the speed |
| Trainers.ArrivesAndStands | trainer.py:108-111 | within 0.1 tile of the target with no input, the tick lands exactly on the target and stands there |
| Trainers.ArrivesAndStepsOn | trainer.py:108-114 | within 0.1 tile with a direction held, the next step starts on the same tick, without the hold delay |
| Trainers.MovingArrives | trainer.py:138-142 | without input, a moving trainer lands exactly on its target and stands there after `ArrivalTicks` ticks |
| Trainers.WalkArrivalTicks | trainer.py:25 | walking at 0.1 tile per tick, a gap of `g` tenths takes `g` ticks |
| Trainers.WalkOneTileScenario | trainer.py:96-142 | from tile (5, 5), three ticks holding Down start a walk to a passable (5, 6), and the first two ticks do not move; nine ticks later it stands exactly on (5, 6) |
| Trainers.TwoAdvancesPerTick | trainer.py:141 | during a walk, one tick advances the animation exactly twice |
| Trainers.TicksAppend | trainer.py:138-142 | running two input sequences one after the other is running their concatenation |
| Trainers.Trainer.constructor | trainer.py:12-28 | the trainer object's state is `Spawned` and meets the invariant |
| Trainers.Trainer.Snap | trainer.py:119-129 | the new state is `Snapped` of the old |
| Trainers.Trainer.SetAction | trainer.py:92-94 | the new state is `WithAction` of the old |
| Trainers.Trainer.Stop | trainer.py:131-136 | the new state is `Stopped` of the old |
| Trainers.Trainer.Move | trainer.py:74-90 | `ok` is false exactly when the lookup raises, and the action is then already set; otherwise the new state is `Moved` of the old |
| Trainers.Trainer.SetActionFromInput | trainer.py:96-114 | `ok` is false exactly when `move` raises; otherwise the new state is `AfterInput` of the old |
| Trainers.Trainer.Draw | trainer.py:34-44 | the new state is `Drawn` of the old: the motion, then the entity's draw |
| Trainers.Trainer.Update | trainer.py:138-142 | `ok` is false exactly when the tick raises; otherwise the new state is `Tick` of the old and the invariant still holds |
| Areas.Dimensions | area.py:24-25 | the base image's size, the one `LoadResources` records |
| Areas.PassableGrid | area.py:58-64 | the grid has the pixel array's shape, and a cell is passable exactly when its pixel is not black (0) |
| Areas.IsPassable | area.py:27-28 | for non-negative positions it is `passable[x / 10][y / 10]`; left of the map it reads the column counted from the far edge, and above the map the row counted from the bottom edge, as Python's negative indices do |
| Areas.PassableWholeTile | area.py:27-28 | every position inside tile (tx, ty) can be looked up and gives `passable[tx][ty]` |
| Areas.LeftOfMapWraps | area.py:28 | a step to tile x = -1 does not raise and reads the last column |
| Areas.PassableIffNotBlack | area.py:27-28 | for a loaded area, a whole tile is passable exactly when its pixel is not black |
| Areas.Expand | area.py:38-40 | one doodad per location of an entry, in order, with its type and front flag |
| Areas.Flatten | area.py:37-40 | the loaded doodads number the total of the locations, and none starts flagged for the overlay |
| Areas.SortByYCorrect | area.py:42 | `Areas.SortByY`, the model of `list.sort(key=...)` there, is ascending in y, a permutation, and stable: the doodads with any given y keep their relative order |
| Areas.LoadDoodads | area.py:34-42 | the nested append loops build the flattened list, which is then sorted by y; the count is the total of the locations |
| Areas.LoadResources | area.py:51-64 | the area keeps the base size, the start location, the sorted doodads and the passability grid of its pixels |
| Doodads.NewDoodad | doodad.py:10-19 | a new doodad keeps its type, location and front flag, and never starts with the overlay flag set |
| Doodads.Coords | doodad.py:28-29 | 16 pixels per tile on both axes |
| Doodads.Center | doodad.py:21-23 | `coords` plus half the image's width, minus half its height |
| Doodads.IsNearby | doodad.py:34-38 | holds exactly when both axis distances are within `threshold` tiles; the default is 64 |
| Overworld.Clamp | main.py:18-23 | `pg.math.clamp` for lo ≤ hi: the result lies in [lo, hi], and is the value itself when the value lies there |
| Overworld.CameraAxis | main.py:17-25 | with the map no smaller than the screen, the offset lies in [screen − map, 0]; it is the floor of `screen/2 − centre` when that lies in range, and the bound otherwise |
| Overworld.CameraOffset | main.py:12-25 | `CameraAxis` on each axis, so both axes of the offset lie in [screen − map, 0] |
| Overworld.CameraCentres | main.py:17-25 | away from the edges, the trainer's centre is drawn at the screen's centre, up to the floor |
| Overworld.CameraStopsAtStart | main.py:18-23 | near the top or left edge, the map's edge stays at the screen's edge |
| Overworld.CameraStopsAtEnd | main.py:18-23 | near the bottom or right edge, the map's far edge stays at the screen's |
| Overworld.DpadInput | main.py:28-44 | a result exists exactly when the stack is not empty, its last key is W, A, S or D, and the opposite key is not held; the number is that key's direction |
| Overworld.KeyDown | main.py:47-51 | W, A, S or D goes on top of the stack; other keys leave it |
| Overworld.KeyUp | main.py:54-61 | W, A, S or D leaves the stack at its first occurrence, removing one copy; releasing a d-pad key not on the stack raises; other keys leave it |
| Overworld.KeyDownUp | main.py:47-61 | pressing a key that is not down, then releasing it, gives the stack back |
| Overworld.LastKeyWins | main.py:28-44 | the most recent key wins whenever its opposite is not held |
| Overworld.OppositesCancel | main.py:28-44 | with opposite keys both held, the newer one gives no direction |
| Overworld.Behind | main.py:68-69 | every doodad it keeps lies strictly above the trainer's row; `DisplayIsPermutation` shows that together with `InFront` it loses none |
| Overworld.InFront | main.py:70-71 | every doodad it keeps lies on or below the trainer's row |
| Overworld.DisplayList | main.py:64-79 | one entry more than there are doodads; the trainer sits after the doodads above it, and before those on or below its row |
| Overworld.DisplayIsPermutation | main.py:64-79 | the display list holds every doodad once and the trainer once |
| Overworld.SortedSplits | main.py:66-79 | for y-sorted doodads, dropping the trainer from the display list gives the doodads back in their order |
| Overworld.Marked | main.py:74-77 | the flag is set exactly when the doodad may be drawn in front, is nearby and collides; nothing else changes |
| Overworld.MarkForeground | main.py:73-77 | the flag-setting loop applies `Marked` to every doodad |
| Overworld.Overlaid | main.py:98 | the doodads drawn over the trainer are all flagged, and no more than there are doodads |
| Overworld.ClearForeground | main.py:98-102 | the overlay pass draws exactly the flagged doodads, in order, and afterwards no doodad is flagged |
| Overworld.OverlayExactlyQualifying | main.py:73-77 | starting with no flags, the overlay holds exactly the doodads that may be drawn in front and are nearby and colliding, in order |
| Games.DirectionOf | game.py:78-80 | the controller's direction number is passed on as the facing with that index |
| Games.Game.constructor | game.py:14-26 | the game starts paused and running, with the camera at (0, 0) and a "wasd" controller of seven released buttons |
| Games.Game.GetCameraOffset | game.py:28-40 | with a 240×160 screen, `CameraAxis` on each axis of the trainer's centre, so the offset lies in [240 − map width, 0] × [160 − map height, 0] |
| Games.Game.ResetToInitialState | game.py:56-59 | paused, with the loaded area and a new trainer spawned at its start location |
| Games.Game.SortEntitiesForDisplay | game.py:61-75 | returns the display list of the doodads and sets exactly the flags `Marked` sets |
| Games.Game.UpdateScreen | game.py:90-107 | the display list, an overlay of exactly the doodads marked this tick, and every flag cleared afterwards |
| Games.Game.Update | game.py:77-88 | the trainer ticks on the controller's direction with B released; the camera then follows the moved trainer; no flag survives the tick |
| Controllers.Button.constructor | controller.py:5-11 | a new button is neither flagged nor down |
| Controllers.Button.AsInt | controller.py:13-17 | its index in UP, DOWN, LEFT, RIGHT; it raises exactly for a button off the d-pad |
| Controllers.Button.Press | controller.py:19-21 | flag and down are both set |
| Controllers.Button.Release | controller.py:23-25 | flag and down are both cleared |
| Controllers.Button.Update | controller.py:27-28 | only the flag is cleared |
| Controllers.Flagged | controller.py:50-51 | the flagged buttons, all of them and only them, as a subsequence of the list (list order kept) |
| Controllers.Held | controller.py:53-54 | the held buttons, all of them and only them, as a subsequence of the list (list order kept) |
| Controllers.DpadOf | controller.py:41-42 | the d-pad buttons, all of them and only them, as a subsequence of the list (list order kept) |
| Controllers.WasdDpad | controller.py:41-42 | with the "wasd" buttons, `get_dpad` is the first four, UP, DOWN, LEFT, RIGHT in that order |
| Controllers.FirstHeldExactly | controller.py:45-47 | the scan finds position `k` exactly when button `k` is held and no button before it is |
| Controllers.Controller.constructor | controller.py:32-36 | the "wasd" style gives the seven buttons of `WasdLayout`; every other style gives none |
| Controllers.Controller.SetButtonsFromStyle | controller.py:80-93 | "wasd" appends UP, DOWN, LEFT, RIGHT (d-pad, keys W S A D), then A, B, START (keys U H SPACE), all new and released; any other style adds nothing |
| Controllers.Controller.ButtonNamed | controller.py:38-39 | the first button with that name; it raises exactly when there is none |
| Controllers.Controller.GetDpadInput | controller.py:44-48 | `None` exactly when no d-pad button is held; otherwise the number of the first held one in button order, a fixed priority |
| Controllers.Controller.DpadPriority | controller.py:44-48 | with the "wasd" buttons, the direction is the position of the first held button among UP, DOWN, LEFT, RIGHT, and that button is the direction of that number |
| Controllers.Controller.GetDpad | controller.py:41-42 | the d-pad buttons, all and only them, as a subsequence of the buttons (each once when the buttons are distinct); the first four buttons for "wasd" |
| Controllers.Controller.GetFlags | controller.py:50-51 | the flagged buttons, all and only them, as a subsequence of the buttons (each once when the buttons are distinct) |
| Controllers.Controller.GetPressed | controller.py:53-54 | the held buttons, all and only them, as a subsequence of the buttons (each once when the buttons are distinct) |
| Controllers.Controller.HandleKeydown | controller.py:56-61 | presses the first button bound to the key and changes no other button; an unbound key changes nothing |
| Controllers.Controller.HandleKeyup | controller.py:63-68 | releases the first button bound to the key and changes no other button; an unbound key changes nothing |
| Controllers.Controller.Poll | controller.py:70-74 | a button becomes down when its key is reported down; no button is released and no flag changes |
| Controllers.Controller.Reset | controller.py:76-78 | every button released |
| Controllers.Controller.Update | controller.py:95-97 | every flag cleared, every down state kept |
| Menus.GetActionFromInput | menu.py:42-58 | no action for an empty list; otherwise the last button alone decides, as START close, A select, B back, UP/DOWN navigate "up"/"down", anything else none |
| Menus.LastButtonDecides | menu.py:46 | earlier buttons in the list never change the action |
| Menus.Navigated | menu.py:73-86 | "down" from the last item goes to 0 and "up" from 0 to the last; otherwise it moves by one and stays in range; any other direction leaves the cursor |
| Menus.EmptyMenuUp | menu.py:82-86 | with no items, "up" moves the cursor to -1 and "down" leaves it at 0 |
| Menus.Menu.Plain | menu.py:12-24 | everything empty or zero, and not open |
| Menus.Menu.Sidebar | menu.py:99-110 | the sidebar layout, with seven items, item r drawn at (16, 14·r + 8), which is the cursor's row r |
| Menus.Menu.SetItems | menu.py:112-121 | appends one item per label, in order, at (text x + cursor x, text y · row + cursor y) |
| Menus.Menu.GetCursorCoords | menu.py:60-62 | the cursor sits one row height lower per position |
| Menus.Menu.Navigate | menu.py:73-86 | the new cursor position is `Navigated` of the old, wrapping over the item count |
| Menus.Menu.Update | menu.py:91-93 | the menu is open afterwards |
| Menus.Menu.Close | menu.py:29-31 | it acts exactly when the menu is open |
| Helpers.IncrementWithWrap | helpers.py:24-30 | the sum when it lies in [0, max]; max below 0; 0 above max; never modular |
| Dialogs.Replaced | dialog.py:75 | every ':' becomes '-', and nothing else changes |
| Dialogs.Split | dialog.py:75 | at least one word, none containing a space |
| Dialogs.JoinSplit | dialog.py:75 | joining the words of a split gives the text back |
| Dialogs.SplitJoin | dialog.py:75 | splitting a join of space-free words gives the words back |
| Dialogs.FirstLineCount | dialog.py:76-82 | the first line takes at least one word, then each next word while the joined line stays within 29 characters, and stops at the first word that would not fit |
| Dialogs.Lines | dialog.py:75-85 | the two lines together are the words of the page, in order, and the first has at least one word |
| Dialogs.Glyph | dialog.py:94-104 | the cell of the first font row holding the character, with no earlier row holding it and no earlier position in the row holding it; none when no row holds it |
| Dialogs.HashGlyph | dialog.py:94-104 | '#', which the last font row holds four times, is drawn from its first cell there, column 12 of row 2 |
| Dialogs.LineLetters | dialog.py:85-106 | letters on line l sit at y = 12·l, left to right, 7 pixels per character, never more letters than characters |
| Dialogs.LettersPlaced | dialog.py:88-106 | every letter is that of a character the font holds, cut from its cell and placed in its column |
| Dialogs.LettersComplete | dialog.py:88-106 | every character the font holds has its letter; one it lacks leaves a gap in its column |
| Dialogs.FindGlyph | dialog.py:94-104 | the row search returns `Glyph` |
| Dialogs.LayOutLine | dialog.py:86-106 | the per-character loop of one line returns `LineLetters` |
| Dialogs.WrapFirstLine | dialog.py:76-82 | the word-wrap loop splits the words after `FirstLineCount` of them |
| Dialogs.RenderDialogText | dialog.py:74-108 | the page's letters are those of its first line, then those of its second |
| Dialogs.Layout | dialog.py:74-108 | no more letters than the two lines have characters, all on line y 0 or y 12, in reading order |
| Dialogs.PageDone | dialog.py:110-116 | the counter restarts, and the state is "next" exactly when another page follows, "exit" otherwise |
| Dialogs.Animated | dialog.py:30-46 | does nothing outside "typewriter"; raises exactly when typing with the page out of range; otherwise one tick: the counter rises by one, and on reaching `frame_max` it resets and the letter rises by one; the page's letters are laid out on its first tick; on reaching the page's length the page is done ("next" iff another page follows, else "exit"), and the page is kept |
| Dialogs.TypingPreserved | dialog.py:38-46 | while typing, `letter ≤ len(page)` is kept, and the page ends exactly on reaching its last letter (still typing means the letter is below the length; ended means it equals it) |
| Dialogs.PageTakesTwoTicksPerLetter | dialog.py:38-44 | from the start of a letter, a page with n letters still to type is done after 2·n ticks, in "next" or "exit" |
| Dialogs.TypingUntilPageDone | dialog.py:38-44 | before those 2·n ticks are over the page is still typing, on the same page, with letter `letter + k / 2` and counter `k % 2` after k ticks; with `PageTakesTwoTicksPerLetter`, the page is done after exactly 2·n ticks |
| Dialogs.Skipped | dialog.py:118-123 | the letter reaches the page's length (starting from no more than it), then the page is done: "next" iff another page follows, else "exit", with the page and its letters kept; it raises exactly for a page out of range |
| Dialogs.TurnedPage | dialog.py:68-72 | letter 0 of the next page, with no letters laid out, typing |
| Dialogs.NextPageInRange | dialog.py:68-72 | turning the page from "next" lands on a page that exists, ready to type |
| Dialogs.Updated | dialog.py:125-132 | in "next" it raises exactly when the page has no letters; otherwise it animates |
| Dialogs.Dialog.constructor | dialog.py:9-28 | a new dialog is in "spawn" on letter 0 of page 0 |
| Dialogs.Dialog.Display | dialog.py:59-60 | the state becomes "typewriter" |
| Dialogs.Dialog.SetNextState | dialog.py:110-116 | the new state is `PageDone` of the old |
| Dialogs.Dialog.Animate | dialog.py:30-46 | `ok` is false exactly where it raises; otherwise the new state is `Animated` of the old |
| Dialogs.Dialog.NextPage | dialog.py:68-72 | the new state is `TurnedPage` of the old |
| Dialogs.Dialog.Skip | dialog.py:118-123 | the letter loop and then `set_next_state` give `Skipped` of the old state |
| Dialogs.Dialog.Update | dialog.py:125-132 | `ok` is false exactly where it raises; otherwise the new state is `Updated` of the old |

## Left out

- Rendering is not modelled: pygame surfaces, sprite-sheet loading, blits, colour keys, scaling and `display.flip`. An image is the (action, facing, frame) triple or font cell that selects it; a sheet is its frame counts.
- font.py is not part of this model. Only its character rows are used, as `Dialogs.FontRows`.
- Event loops and frame pacing are not modelled: `main()`, `Game.loop`, the clock and `pg.event.get`.
- The keyboard state `Controller.poll` reads is the parameter `down` of `Controllers.Controller.Poll`.
- File loading is not modelled: the map JSON, the base image and the passability PNG. Their decoded contents are parameters of `Areas.LoadResources`, including each doodad type's image size.
- Floating point is not modelled. Positions are exact tenths of a tile, and pixel positions are exact reals.
- `Doodad.colliding_with`, which is `Rect.colliderect`, is the parameter `collides`. It stands for the test of the doodad's rectangle against the trainer's rectangle. The doodad's rectangle is never moved, so it is `image.get_rect()`: at (0, 0), with the image's size (doodad.py:44). The trainer's rectangle is the one `Entities.Select` gives (entity.py:46-47). The test is left as a parameter because pygame's conversion of float corners to the integers of a Rect is not modelled.
- Several members the shown code calls do not exist in it, so their results are inputs here:
  - `trainer.y_coord()` is the parameter `trainerY`;
  - `Doodad.is_colliding_with`, which game.py:72 calls, is taken to be `colliding_with` and so is `collides` (Entity has a method of that name, entity.py:51, but Doodad does not);
  - `Area.update` and `area.get_tile_events` are left out;
  - `Doodad.location`, the sort key in `load_doodads`, is taken to be `grid_location`.
- Tile events, fades, map changes, and the scene-level coordination of menus and dialogs are not modelled. The core files do not implement them.
- The menu handlers that only print (`back`, `select`, and the body of `close`) are not modelled; `close` keeps its `open` guard.
- The dialog's `blit_next_letter` and its continue-button blit draw only. `Dialogs.Updated` keeps the IndexError that the continue-button blit raises.
- Doodad `draw` and `update` are not modelled. They do nothing, and doodads are values.
- The camera when the map is smaller than the screen is not modelled. `pg.math.clamp` would then run with its lower bound above its upper bound, and its result is not known.
- Overworld.CameraAxis, Overworld.CameraOffset: require the map to be no smaller than the screen, for the reason above.
- Games.Game.GetCameraOffset, Games.Game.SortEntitiesForDisplay, Games.Game.UpdateScreen, Games.Game.Update: require `Ready()`. That means the area and the trainer are present and the map is no smaller than the screen. In the source, calling them before `reset_to_initial_state` raises AttributeError.
- The key stack of main.py is modelled on values. `KeyDown` and `KeyUp` return the new list; the in-place update of the caller's list is not modelled. The source's `except IndexError` around `pop` is never taken.
- Trainers.Trainer.Update: requires sprite sheets that satisfy `SheetsConsistent`; so do `Trainers.Spawned`, `Trainers.Trainer.constructor`, `Trainers.Tick` (through `Trainers.Invariant`) and `Games.Game.ResetToInitialState`. `move` keeps the frame index across a change of action or facing, so sheets with other frame counts can make `draw` index past a sheet (IndexError). That case is not modelled.
- Entities.Entity.Draw: requires the frame index to lie within the current sheet. It does not model the IndexError of a frame past the end.
