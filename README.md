# Drum machine step sequencer, modelled in Dafny

`drum_machine.py` is a step sequencer for Pythonista's `scene` library. The screen holds a grid of 16 *lines* of 8 *nodes*:

- A line is one time step.
- A node's position within its line is its voice.
- Each node has a state, 0 (off) or 1 (on). A touch toggles it.
- Every frame, a playhead `curline` moves to the next line, wrapping back to line 0 after the last.
- The frame draws that line bright and every other line dimmed.
- It plays the drum sample of each node in the bright line that is on, in position order.

This project models that logic and proves it correct.

- `geometry.dfy` (module `Geometry`): points, rectangles and colours. It defines the containment test a touch is matched by, and lemmas on equal-width slots.
- `step_grid.dfy` (module `StepGrid`): the grid as values. It covers:
  - the cell contents and the 0/1 toggle table;
  - the first node, in line-then-position order, whose rectangle contains a point (`FirstHit`);
  - the effect of a touch (`Touch`);
  - the grid built at setup (`Layout`);
  - the drums a bright line plays (`LinePlays`).
- `playhead.dfy` (module `Playhead`): the advance-and-wrap of `curline`, its range invariant and its period.
- `sequencer.dfy` (module `Sequencer`): the program's own classes.
  - `Node` has a mutable `state` field and the methods `Toggle`, `Hit` and `Draw`.
  - `DrumMachine` holds `nodes`, `curline` and `maxline`. Its methods are setup (the constructor), `GenerateNodes`, `Draw` and `TouchBegan`.
  - Each method is proved against the `StepGrid` and `Playhead` definitions. A ghost field `Cells` holds the nodes' contents as values, and the object invariant `Valid` ties it to the nodes.
  - `FirstBeat` is a short session from setup: one touch, then one frame.

Modelling choices:

- **Coordinates** are real numbers. Node width and height are parameters of setup and may be any reals; only the lemmas about where a touch lands (`StepGrid.LayoutHitIsCellUnderPoint`, `Sequencer.FirstBeat` and its helpers) require them to be positive.
- **Containment** of a point in a node's rectangle is half-open, `[x, x + w) × [y, y + h)`.
- **Sound**: no sound is played. `Node.Draw` returns the drum it fires, and `DrumMachine.Draw` returns the drums the frame plays, in order.
- **Drawing** yields a `Paint` value for each node. It holds:
  - the node's rectangle;
  - the selected colour if the node is on, otherwise the background colour;
  - whether the node is drawn bright.

Points where the code, not a description of the program, decides the model:

- The code has no pause, menu, gesture classification or saving and loading of patterns. The model has none of them either.
- Lines are time steps and positions are voices. This orientation is kept as written.
- `curline` is incremented before it is compared with `maxline`. So the first frame after setup lights line 1, not line 0 (`Playhead.FramesFromSetup`).
- A touch is not mapped to a cell by dividing its coordinates. The program scans the nodes and toggles the first whose rectangle contains the point, and the model does the same. On the grid built at setup, that scan is proved to pick the node at line ⌊y/h⌋, position ⌊x/w⌋ (`StepGrid.LayoutHitIsCellUnderPoint`).
- In `generate_nodes`, `x += 1` and `y += 1` rebind `for`-loop variables and have no effect. Every index from 0 up is used.

## Model

| member | source | states |
|---|---|---|
| Geometry.Contains | drum_machine.py:26 | `point in self.bounds`, taken as half-open containment in [x, x + w) × [y, y + h); a rectangle that contains any point has positive width and height |
| StepGrid.Flip | drum_machine.py:14-15 | looking a state of 0 or 1 up in the toggle table gives a state of 0 or 1 different from it |
| StepGrid.FlipInvolutive | drum_machine.py:14-15 | toggling twice restores the state |
| Sequencer.Node.constructor | drum_machine.py:5-12 | a new node has rectangle (x, y, w, h), the given background colour, selected colour and drum, and state 0 |
| Sequencer.Node.Toggle | drum_machine.py:14-15 | the state, 0 or 1 before, becomes the other of 0 and 1 |
| Sequencer.Node.Hit | drum_machine.py:25-28 | reports a hit exactly when the point lies in the node's rectangle; the node toggles when there is a hit and is unchanged otherwise |
| Sequencer.Node.Draw | drum_machine.py:17-23 | paints the node's rectangle in its selected colour if it is on and in its background colour if off, bright or dimmed as asked; fires a drum exactly when the node is on and drawn bright, and that drum is the node's own |
| StepGrid.Layout | drum_machine.py:32-46 | the grid built for `rows` voices and `lines` steps has `lines` lines of `rows` cells each |
| StepGrid.LayoutAllOff | drum_machine.py:10 | every node of a freshly built grid is off |
| Sequencer.DrumMachine.GenerateNodes | drum_machine.py:32-46 | returns `lines` lists of `rows` new nodes; the node at line y, position x has rectangle (x*w, y*h, w, h), state 0, and selected colour and drum from the tables at x |
| Sequencer.DrumMachine.GenerateLine | drum_machine.py:35-45 | builds one line: `rows` new nodes, the one at position x being the cell Layout puts at that line and position |
| Sequencer.DrumMachine.constructor | drum_machine.py:48-74 | setup installs the background colour, the selected-colour and drum tables, and a grid of 16 lines of 8 nodes laid out as Layout says, all off; it sets curline to 0 and maxline to 15 |
| Playhead.Advance | drum_machine.py:79-81 | one frame moves a playhead in 0..maxline to (curline + 1) mod (maxline + 1), which stays in 0..maxline |
| Playhead.AdvanceN | drum_machine.py:79-81 | n frames of advance keep a playhead in 0..maxline in range, and zero frames leave it where it is |
| Playhead.AdvanceNModular | drum_machine.py:79-81 | after n frames the playhead is at (curline + n) mod (maxline + 1) and still in range |
| Playhead.Period | drum_machine.py:78-81 | after maxline + 1 frames, one per line, the playhead is back where it started |
| Playhead.FramesFromSetup | drum_machine.py:73-81 | from setup (curline 0, 16 lines), frame k lights line k mod 16; the first frame lights line 1 |
| Sequencer.DrumMachine.Draw | drum_machine.py:78-87 | advances curline with wrap-around and keeps the invariant; paints every line, the line at the new curline bright and every other line dimmed; plays exactly the drums of the bright line's nodes that are on, in position order; no node changes |
| Sequencer.DrumMachine.DrawLines | drum_machine.py:82-87 | paints the lines in order, line `cur` bright and the rest dimmed, and plays the drums line `cur` plays; changes nothing |
| Sequencer.DrumMachine.DrawLine | drum_machine.py:86-87 | paints a line's nodes in position order, all bright or all dimmed; a bright line plays LinePlays of its cells and a dimmed one plays nothing |
| StepGrid.CellPaint | drum_machine.py:18-21 | a node is painted over its own rectangle, bright or dimmed as asked, in either its selected or its background colour |
| StepGrid.ToggleRepaints | drum_machine.py:18 | when a node's selected and background colours differ, toggling it changes its paint: the colour shows the state |
| StepGrid.LinePlays | drum_machine.py:22-23 | the drums a bright line plays, never more than it has nodes; LinePlaysOnDrums states which they are |
| StepGrid.OnPositions | drum_machine.py:22 | lists, in strictly increasing order, exactly the positions of a line whose node is on |
| StepGrid.LinePlaysOnDrums | drum_machine.py:22-23 | the drums a bright line plays are, one for one, the drums of its nodes that are on, in position order |
| StepGrid.LinePlaysAppend | drum_machine.py:86-87 | playing a line in two consecutive pieces plays the same drums as playing it whole |
| StepGrid.SilentLine | drum_machine.py:22-23 | a line with no node on plays nothing |
| StepGrid.Toggled | drum_machine.py:15 | toggling the node at (y, x) keeps the grid's shape, flips that node's 0/1 state and leaves its other fields and every other node unchanged |
| StepGrid.Touch | drum_machine.py:89-92 | the grid after a touch keeps its shape, and a touch no node contains changes nothing; TouchEffect states the full effect |
| StepGrid.FirstHitInLine | drum_machine.py:91-92 | finds the first position, from x on, whose node contains the point, with no node before it in the line containing it; finds none only when no node from x on contains it |
| StepGrid.FirstHitFrom | drum_machine.py:90-92 | finds the first node, in line-then-position order among the lines from y on, whose rectangle contains the point; finds none only when no such node contains it |
| StepGrid.FirstHit | drum_machine.py:89-92 | a found node contains the point and no earlier node does; when none is found, no node contains the point |
| StepGrid.FirstHitUnique | drum_machine.py:89-92 | at most one node is the first node containing a point |
| StepGrid.FirstHitExactly | drum_machine.py:89-92 | FirstHit finds (y, x) if and only if (y, x) is the first node containing the point |
| StepGrid.TouchEffect | drum_machine.py:89-92 | a touch keeps the grid's shape and every state 0 or 1; it toggles the first node containing the point and leaves every other node as it was |
| StepGrid.TouchChangesAtMostOne | drum_machine.py:89-92 | any two nodes a touch changes are the same node, and a touch that changes a node had a node containing the point |
| StepGrid.FirstHitOnlyReadsBounds | drum_machine.py:26 | which node a touch hits depends only on the nodes' rectangles, not on their states |
| StepGrid.TouchTwice | drum_machine.py:89-92 | touching the same point twice restores the grid |
| Sequencer.DrumMachine.TouchBegan | drum_machine.py:89-92 | the grid becomes Touch of the old grid: the first node in line-then-position order whose rectangle contains the point toggles and nothing else changes; curline does not move and the invariant holds |
| Sequencer.DrumMachine.TouchLine | drum_machine.py:91-92 | scanning one line reports a hit exactly when some node of the line contains the point; then the first such node toggles, and otherwise nothing changes |
| StepGrid.LayoutHitIsCellUnderPoint | drum_machine.py:36-42 | on a grid built with positive node sizes, a touch inside [0, rows*w) × [0, lines*h) hits the node at line ⌊y/h⌋, position ⌊x/w⌋, and a touch outside hits nothing |
| StepGrid.LayoutCellContains | drum_machine.py:37-39 | the node at line j, position i of a built grid contains the point exactly when the point is inside the grid and (j, i) is (⌊y/h⌋, ⌊x/w⌋) |
| Sequencer.FirstBeat | drum_machine.py:72-92 | after setup, a touch in the middle of the first node of line 1 followed by one frame plays exactly "Drums_01" |
| Sequencer.FirstBeatGrid | drum_machine.py:72-92 | on the grid built at setup, that touch leaves line 1 playing "Drums_01" alone |
| Sequencer.FirstBeatTouch | drum_machine.py:89-92 | on the grid built at setup, that touch toggles exactly line 1, position 0 |
| Sequencer.FirstBeatHit | drum_machine.py:72 | the first hit of that touch on the grid built at setup is line 1, position 0 |

## Left out

- The drawing calls `fill`, `rect`, `stroke` and `stroke_weight`. The model keeps only each node's paint: rectangle, chosen colour and the bright flag.
- The 0.8 dimming multiply on a dimmed node's colour. It is floating-point colour arithmetic, so only the bright flag is kept.
- `sound.load_effect` and `sound.play_effect`. These are calls into the audio library, replaced by the returned drum trace.
- The `scene` framework: `Scene`, `run`, `PORTRAIT`, `Size`, `Rect` and the touch object. `Rect.__contains__` is not part of this model, and containment is taken as half-open.
- The node size `Node.size`. It is stored but never read.
- The screen size and its float division into node sizes (`self.size.w/8.`, `self.size.h/16.`). Node width and height are parameters of the constructor, and the reals used have no rounding.
- `Sequencer.DrumMachine.GenerateNodes`: takes `rows` and `lines` as natural numbers, and requires both tables to have an entry for every position below `rows`. A negative count, for which Python's `range` is empty, is not modelled. Nor is `rows` above 8, for which `self.nodesl[x]` raises `KeyError`; setup always passes 8.
- `Sequencer.Node.Toggle`: requires the state to be 0 or 1. On any other state the source's table lookup would raise `KeyError`; states are always 0 or 1, as the invariant proves.
- `DrumMachine.draw` and `touch_began` are called by the host event loop. Their ordering and timing are not modelled; each call is one method call.
- Pause and resume, a menu panel, gesture classification, and saving or loading the pattern. None of them is in `drum_machine.py`.
