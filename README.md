# Typewriter dialogue, collision and input edges of a small canvas game

This project models the logic core of `engine.js`, a browser top-down exploration game:

- the `DialogueManager` typewriter state machine (`start`, `update(time)`, `nextLine`, and the text `draw` shows);
- the `isColliding` box overlap test;
- the `keys` / `keyJustPressed` edge tracking done by the keydown and keyup handlers and `resetInputFlags`;
- the interaction step of `update(dt)`, which starts the wall or old-tree script when the player overlaps the object and `z` was just pressed.

Each stateful part comes twice. A value model (`DialogueModel`, `InputModel`) holds the functions and the lemmas that relate several calls. A class (`Dialogue.DialogueManager`, `Input.InputState`) holds the logic fields of the source object, updated in place. `DialogueManager` leaves out the box geometry and font, treats `speed` as a constant, and adds a `completions` log of callback invocations. Each class method's postcondition ties its new state to the value model. `Game.Update` does the same for `update(dt)`, over both objects.

Modelling choices:
- Times are integer milliseconds. The reveal interval `speed` is the constant 30.
- `onComplete` is an `Option<CallbackId>`: `None` stands for `null`. Its invocations are logged, oldest first, in the `completions` field, so "runs exactly once" can be stated as the log growing by exactly one entry.
- With an empty script, `lines[currentLine]` is `undefined` and the source throws a TypeError when it reads `.length` or calls `.substring`. The model returns `threw` in that case. `update` has already raised `currentChar` and set `lastCharTime` before it throws, and the model keeps those changes. `nextLine` throws before it changes anything.
- Strings are `seq<char>`. A JavaScript string's `length` counts UTF-16 code units; the model counts `char`s.

Behaviour of `engine.js` that the lemmas make explicit:
- `update(dt)` has no first-match rule. Both the wall check and the tree check run. When both hold, the later `start` (the old tree's) overwrites the wall's (`Game.LaterCheckOverwrites`). The real 50×50 player never overlaps both objects at an integer position (`Game.PlayerNeverTouchesBoth`).
- `isColliding` does not exclude boxes without area. A zero-sized box strictly inside another box collides with it (`Collision.ZeroSizedBoxInsideCollides`).
- Edge flags are not cleared in every frame. While a dialogue is shown, `update(dt)` returns before `resetInputFlags`. A `z` pressed during a dialogue therefore restarts it on the first frame after it closes, if the player is still over the object (`Game.StaleEdgeRestartsDialogue`).
- `start([])` is accepted. The next reveal, advance or draw then throws (`DialogueModel.StartEmptyScriptThrows`). The scripts the game passes are non-empty, so from the initial state no run of events ever throws, in `update`, `nextLine` or `draw` (`Game.GameNeverThrows`).

## Model

| member | source | states |
|---|---|---|
| Collision.IsColliding | engine.js:180-187 | the four strict comparisons; colliding boxes have positive combined width and combined height, so two boxes without extent never collide |
| Collision.CollidingIffShareCell | engine.js:180-187 | the four strict comparisons succeed on two boxes with area exactly when some unit cell lies in both; a shared cell always makes the test succeed |
| Collision.CollidingSymmetric | engine.js:180-187 | `isColliding(a, b)` equals `isColliding(b, a)` |
| Collision.TouchingEdgesDoNotCollide | engine.js:180-187 | boxes that meet only at an edge, on either axis and on either side, do not collide |
| Collision.AdjacentSquaresDoNotCollide | engine.js:180-187 | the 10-wide squares at x 0 and x 10 do not collide; shifting one by a pixel makes them collide |
| Collision.ZeroSizedBoxInsideCollides | engine.js:180-187 | a zero-sized box strictly inside another collides with it, although they share no cell |
| InputModel.KeyDown | engine.js:10-15 | after keydown the key is held, its edge is set iff it was not held or was already set, and no other key changes in either object |
| InputModel.KeyUp | engine.js:17-19 | after keyup the key is not held, the edges are untouched and no other key changes |
| InputModel.ResetInputFlags | engine.js:210-214 | after the reset no key is just pressed, and the held keys and the set of recorded keys are unchanged |
| InputModel.KeyDownRaisesEdgeOnlyOnPress | engine.js:10-15 | after keydown the key is held; its edge is set iff it was not held before (or already set); an already-held key leaves the edges alone; no other key changes in either object |
| InputModel.KeyUpReleasesOnly | engine.js:17-19 | after keyup the key is not held; the edges are untouched and no other key changes |
| InputModel.ResetClearsEveryEdge | engine.js:210-214 | after the reset no key is just pressed, the held keys and the set of recorded keys are unchanged, and a second reset changes nothing |
| InputModel.HeldKeyFiresOnce | engine.js:10-15 | a key pressed from released raises its edge; repeated keydowns after the frame's reset raise none |
| InputModel.PressAfterReleaseFiresAgain | engine.js:10-19 | releasing a key and pressing it again raises a new edge |
| InputModel.TapWithinFrameRegisters | engine.js:10-19 | a press and release within one frame still leaves the edge set for that frame |
| Input.InputState.constructor | engine.js:7-8 | both objects start empty |
| Input.InputState.KeyDown | engine.js:10-15 | the keydown handler updates both objects as the value model's keydown says |
| Input.InputState.KeyUp | engine.js:17-19 | the keyup handler updates `keys` as the value model's keyup says |
| Input.InputState.ResetInputFlags | engine.js:210-214 | the loop over the recorded keys sets every one to false and leaves `keys` alone, as the value model's reset says |
| DialogueModel.Start | engine.js:122-128 | the box is shown, no callback runs for a dialogue it overwrites, and the invariant holds iff the script is non-empty |
| DialogueModel.Update | engine.js:130-139 | `update` keeps the script, the line, the visibility and the callback log, raises the character count by at most one, and under the invariant never throws and keeps it |
| DialogueModel.NextLine | engine.js:156-167 | `nextLine` keeps the script, the callback and the time, moves at most one line on, runs the callback exactly when it hides the box, and under the invariant never throws and keeps it |
| DialogueModel.Fired | engine.js:165 | `onComplete?.()` runs a stored callback once and a `null` one not at all |
| DialogueModel.VisibleText | engine.js:141-153 | nothing is drawn when hidden; the draw throws when the line is undefined; otherwise it shows a prefix of the current line, of length `currentChar` under the invariant |
| DialogueModel.TailCost | engine.js:156-167 | the lines from index i on need between one and two presses each |
| DialogueModel.PressesToClose | engine.js:156-167 | a shown box needs at least 1 and at most twice the remaining lines of presses; a hidden one needs none |
| DialogueModel.StartLoadsScript | engine.js:122-128 | `start` installs the script and the callback, sets line and character to 0 and shows the box; it keeps `lastCharTime`, runs no callback, and establishes the invariant iff the script is non-empty |
| DialogueModel.StartPressesToClose | engine.js:122-128 | a non-empty fresh script satisfies the invariant and needs between n and 2n presses for n lines |
| DialogueModel.StartEmptyScriptThrows | engine.js:130-167 | after `start([])` an advance throws without changing anything, the draw throws, and an update throws iff its interval has passed |
| DialogueModel.UpdateRevealsOneCharacter | engine.js:130-139 | under the invariant `update` never throws and keeps the invariant; hidden or within the interval it changes nothing; otherwise it reveals one more character, clamped to the line length, and sets `lastCharTime` to the time |
| DialogueModel.UpdateOnlyExtendsText | engine.js:130-153 | a reveal never raises the presses still needed; the shown text only grows, by at most one character, on the same line, and no callback runs |
| DialogueModel.NextLineWhenHiddenDoesNothing | engine.js:156-157 | `nextLine` on a hidden box changes nothing and does not throw |
| DialogueModel.NextLineBranches | engine.js:156-167 | a partial line is shown whole with the line unchanged; a finished line that is not the last advances the line and resets the character to 0; a finished last line hides the box and runs the callback once; the invariant is kept and the script, callback and time are untouched |
| DialogueModel.NextLineUsesOnePress | engine.js:156-167 | every `nextLine` on a shown box lowers the presses still needed by exactly one, and runs the callback exactly when it closes the box |
| DialogueModel.PressesWhenHidden | engine.js:156-157 | any number of presses on a hidden box changes nothing, so nothing fires again |
| DialogueModel.OpenBeforeLastPress | engine.js:156-167 | fewer presses than needed leave the box shown with no callback run |
| DialogueModel.ClosedAtLastPress | engine.js:156-167 | exactly the needed number of presses closes the box, running the callback exactly once |
| DialogueModel.ScriptClosesWithinTwicePerLine | engine.js:122-167 | after `start` with n lines, any 2n or more presses leave the box closed with the callback run exactly once |
| DialogueModel.HiByeScenario | engine.js:156-167 | `start(["Hi", "Bye"])`: the first press reveals "Hi", the second moves to line 1 with nothing shown, the third reveals "Bye", and the fourth closes |
| Dialogue.DialogueManager.constructor | engine.js:108-120 | the object starts with no lines, line and character 0, hidden, `lastCharTime` 0 and no callback |
| Dialogue.DialogueManager.Start | engine.js:122-128 | the method updates the fields as the value model's `start` says |
| Dialogue.DialogueManager.Update | engine.js:130-139 | the method updates the fields and reports a throw as the value model's `update` says |
| Dialogue.DialogueManager.NextLine | engine.js:156-167 | the method updates the fields, logs the callback and reports a throw as the value model's `nextLine` says |
| Game.Update | engine.js:220-235 | `update(dt)` changes the dialogue manager and the input objects as the dispatch function says |
| Game.Dispatch | engine.js:220-235 | while a dialogue is shown nothing changes; otherwise every edge ends cleared; held keys and the callback log are kept; the invariant is kept |
| Game.DispatchFrozenWhileVisible | engine.js:220-221 | while a dialogue is shown, `update(dt)` changes nothing, so edge flags persist |
| Game.DispatchStartsMatchingScript | engine.js:220-235 | otherwise a script starts iff the `z` edge fired over the wall or the tree; the tree's script wins; no callback runs; a started script satisfies the invariant; every edge ends cleared and the held keys are unchanged |
| Game.LaterCheckOverwrites | engine.js:224-232 | a box over both objects with `z` just pressed ends with the old tree's script |
| Game.PlayerNeverTouchesBoth | engine.js:81-104 | the 50×50 player overlaps at most one of the wall and the tree, at every integer position |
| Game.StaleEdgeRestartsDialogue | engine.js:220-235 | a `z` edge raised during a dialogue survives until the box is closed, after which the next frame over the wall starts the wall script again |
| Game.Apply | engine.js:10-32 | key events never change the dialogue or throw, an advance never changes the input objects, and the callback log only grows |
| Game.Run | engine.js:24-32 | an empty run changes nothing, and over any run the callback log only grows |
| Game.RunKeepsInv | engine.js:24-32 | from a state satisfying the invariant, no sequence of key events, frames (with their `draw`) and advances throws, and the invariant still holds at the end |
| Game.GameNeverThrows | engine.js:24-32 | from the initial objects, no sequence of events reaches an empty-script TypeError in `update`, `nextLine` or `draw` |

## Left out

- Canvas drawing: the box geometry and font of `DialogueManager`, `ctx.*`, `drawCharBody` and `drawCharImage`. This is presentation; only the text `draw` shows is modelled.
- Image loading and the `playerImageLoaded` gate. These are asynchronous browser I/O.
- Game.PlayerNeverTouchesBoth: boxes have integer coordinates throughout the model, so the lemma covers integer positions only. After `moveBody` the source's player position is fractional.
- `requestAnimationFrame` and `performance.now()`. Timestamps are integer parameters, so fractional milliseconds are not modelled. A `Frame` event stands for one call of `update(dt)` followed by `draw`, which reveals text and can throw but draws nothing else.
- `moveBody`. It is floating-point `speed * dt` arithmetic, so the player box after movement is an input.
- `addEventListener` registration and `console.log`. The Enter listener's call of `nextLine` appears as the `Advance` event; the keydown that the same Enter press delivers to the input objects is a separate `KeyDown` event.
- The bodies of `onComplete` callbacks. The game only passes the default no-op, so a callback is an identity whose invocation is logged.
- Behaviour after a throw. In the browser, an exception in the frame callback stops the animation loop, while `Game.Run` keeps applying events. `Game.GameNeverThrows` shows that no throw is reachable from the initial state.
