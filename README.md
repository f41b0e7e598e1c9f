# GameArena draw list and input state, in Dafny

This project models the core of `GameArena`, a small teaching library that
opens a window, paints balls, rectangles, lines and text in layer order, and
records which keys and mouse buttons are held.

Two parts of `GameArena.java` are modelled:

- **The draw list.** `things` is the list of objects painted front to back,
  kept in non-decreasing layer order (painter's algorithm). `addThing` scans
  from the front and inserts the new object before the first element whose
  layer is strictly greater, or appends it. It does nothing once the arena is
  exiting. If the list already holds more than 100000 objects, it calls
  `exit()` instead of inserting. `removeObject` removes the first equal
  element. `clearGameArena` empties the list. `exit` sets the one-way
  `exiting` flag.
- **The input state.** `keyAction` maps a key code to one flag (the eight
  named keys, or the letter table `alphasPressed` for codes 65..90) or to
  none. `letterPressed` is the case-insensitive A-Z lookup. The mouse
  handlers set the two button flags and the pointer position.

Layout:

- `drawlist.dfy`, module `DrawList`: drawable objects as values, the
  insertion point, insert and remove as functions on sequences, the
  draw-list state (`DrawState`: the list plus the exiting flag) and its
  transitions, and the lemmas about them.
- `input.dfy`, module `Input`: the key codes, the reference key table
  `KeyFlag`, the keyboard flags as a value (`Keys`) and `KeyUpdate`, the
  letter lookup, and the mouse flags (`Mouse`, `ButtonUpdate`).
- `arena.dfy`, module `Arena`: class `GameArena` with the source's fields.
  Its methods update the fields in place. `Exit`, `AddThing`, `AddShape`,
  `RemoveObject` and `ClearGameArena` are proved to leave the draw-list
  state that the `DrawList` function gives for the old state. `KeyPressed`
  and `KeyReleased` are proved to leave `Input.KeyUpdate` of the old
  keyboard state. `MousePressed` and `MouseReleased` are proved to leave
  `Input.ButtonUpdate` of the old mouse state. `KeyAction` states each
  keyboard flag on its own. `SetSize`, `MouseMoved` and `MouseDragged`
  state the fields they set directly; no module function stands behind
  them.
  `AddThing` keeps the source's scan loop, including its early `break` and
  its `added` flag.

A drawable is `Ball`, `Rectangle`, `Line` or `Text` with a layer, or `Other`,
any other game object, which the scan reads as layer 0 (the default of the
`instanceof` chain). The `id` field stands for the Java object's identity.
The getters (`getArenaWidth`, `upPressed`, `getMousePositionX`, ...) are
plain field reads in the class.

Two behaviours of the code are easy to misread; the model follows the code:

- Capacity: the guard at GameArena.java:234 is `things.size() > 100000`,
  while the banner it prints (GameArena.java:237) announces a limit of
  100000 objects. A list of exactly 100000 objects still accepts an insert
  and then holds 100001. Only the insert after that sets `exiting`.
  `DrawList.CapacityBoundary` states this.
- The exiting flag only blocks `addThing` (GameArena.java:230-231) and
  painting. `removeObject` and `clearGameArena` test no flag and still
  change the list after `exit()`. `DrawList.ExitingBlocksOnlyAdds` states
  this.

## Model

| member | source | states |
|---|---|---|
| DrawList.InsertPos | GameArena.java:245-266 | the scan's stopping point: every element before it has layer at most the new layer, and the element at it (if any) has a strictly greater layer |
| DrawList.InsertShape | GameArena.java:261-270 | an insert adds exactly one element, the new object, at the insertion point; deleting it gives back the old list, so the existing elements keep their order |
| DrawList.InsertPosSplits | GameArena.java:261-264 | in a sorted list the new object goes after every element of equal or lower layer and before every element of higher layer (stable among equal layers) |
| DrawList.InsertSorted | GameArena.java:245-270 | inserting an object with its own layer keeps a sorted list sorted |
| DrawList.InsertStable | GameArena.java:245-270 | after one insert, the object's own layer holds the old objects of that layer followed by the new one; other layers are unchanged |
| DrawList.InsertPermutes | GameArena.java:261-270 | an insert adds one copy of the object and removes nothing |
| DrawList.InsertAllSorted | GameArena.java:227-273 | any sequence of inserts (each with the object's own layer) into a sorted list gives a sorted list |
| DrawList.InsertAllStable | GameArena.java:227-273 | after any sequence of inserts into a sorted list, each layer holds its old objects followed by the new objects of that layer in insertion order |
| DrawList.InsertAllPermutes | GameArena.java:227-273 | any sequence of inserts gives a list holding exactly the old objects plus the inserted ones |
| DrawList.InsertExample | GameArena.java:245-270 | inserting layers 3, 1, 2, 1 gives layers 1, 1, 2, 3, with the two layer-1 objects in insertion order |
| DrawList.FirstIndex | GameArena.java:280-283 | the index `remove` deletes: no element before it equals the object, the element at it does, and it is the length when the object is absent |
| DrawList.RemoveAbsent | GameArena.java:280-283 | removing an object that is not in the list leaves the list unchanged |
| DrawList.RemovePresent | GameArena.java:280-283 | removing a present object drops only its first occurrence: the list gets one shorter, the prefix is kept, the rest closes up, and one copy leaves the contents |
| DrawList.RemoveSorted | GameArena.java:280-283 | removal keeps a sorted list sorted |
| DrawList.RemoveUndoesInsert | GameArena.java:227-284 | removing an object right after inserting it (when it was absent) restores the original list |
| DrawList.LayerOf | GameArena.java:246-259 | no contract of its own: the layer the `instanceof` chain reads (0 for any other object); `Arena.GameArena.AddThing` is proved to read exactly this value in its loop |
| DrawList.Insert | GameArena.java:261-270 | no contract of its own: the list with `o` placed at `InsertPos`; `InsertShape`, `InsertSorted`, `InsertStable` and `InsertPermutes` are proved about it |
| DrawList.RemoveFirst | GameArena.java:282 | no contract of its own: the list without the element at `FirstIndex`; `RemoveAbsent`, `RemovePresent` and `RemoveSorted` are proved about it |
| DrawList.Add | GameArena.java:227-273 | no contract of its own: `addThing` on the draw-list state; `Arena.GameArena.AddThing` is proved against it, and `StepGood`, `ExitingBlocksOnlyAdds` and `CapacityBoundary` are proved about it |
| DrawList.Remove | GameArena.java:280-284 | no contract of its own: `removeObject` on the draw-list state; `Arena.GameArena.RemoveObject` is proved against it, and `StepGood` and `ExitingBlocksOnlyAdds` are proved about it |
| DrawList.Clear | GameArena.java:371-375 | no contract of its own: `clearGameArena` on the draw-list state; `Arena.GameArena.ClearGameArena` is proved against it, and `StepGood` is proved about it |
| DrawList.Exit | GameArena.java:175-177 | no contract of its own: `exit` on the draw-list state; `Arena.GameArena.Exit` is proved against it, and `ExitIdempotent` and `RunKeepsExiting` are proved about it |
| DrawList.Step | GameArena.java:227-375 | no contract of its own: one call of the public draw-list interface, with each adder passing its object's own layer; `StepGood` is proved about it |
| DrawList.Run | GameArena.java:227-375 | no contract of its own: any sequence of those calls; `RunGood` and `RunKeepsExiting` are proved about it |
| DrawList.StepGood | GameArena.java:227-375 | every add (with the object's own layer), remove, clear and exit keeps the list sorted and at most 100001 long |
| DrawList.RunGood | GameArena.java:227-375 | any sequence of those calls keeps the list sorted and at most 100001 long |
| DrawList.RunKeepsExiting | GameArena.java:175-177 | once the exiting flag is set, no sequence of calls resets it |
| DrawList.ExitingBlocksOnlyAdds | GameArena.java:227-284 | while exiting, an add changes nothing, while remove and clear still act on the list |
| DrawList.ExitIdempotent | GameArena.java:175-177 | exit sets the flag, leaves the list alone, and a second exit changes nothing |
| DrawList.CapacityBoundary | GameArena.java:234-243 | a list of exactly 100000 accepts an insert (reaching 100001); the next insert only sets exiting and keeps the list; later inserts do nothing |
| Arena.GameArena.constructor | GameArena.java:19-84 | a new arena has the given size, an empty list, is not exiting, no key or button held, pointer at (0, 0) |
| Arena.GameArena.SetSize | GameArena.java:136-147 | records the new width and height and changes nothing else |
| Arena.GameArena.Exit | GameArena.java:175-177 | sets the exiting flag and changes nothing else |
| Arena.GameArena.AddThing | GameArena.java:227-273 | the scan loop leaves exactly the state `DrawList.Add` gives: unchanged when exiting, exiting set when the list holds more than 100000, else the object inserted at its position; keeps sortedness for an object added with its own layer |
| Arena.GameArena.AddShape | GameArena.java:292-324 | adding a ball, rectangle, line or text with its own layer is that add and keeps the list sorted |
| Arena.GameArena.RemoveObject | GameArena.java:280-284 | the list becomes the list without its first equal element, whether or not exiting, and stays sorted |
| Arena.GameArena.ClearGameArena | GameArena.java:371-375 | the list becomes empty; the exiting flag is unchanged |
| Arena.GameArena.KeyAction | GameArena.java:415-437 | each named key's flag becomes the new value exactly when the code is that key's code; for codes 65..90 the letter entry code - 65 becomes the new value and the other entries keep theirs; only the keyboard fields change |
| Arena.GameArena.KeyPressed | GameArena.java:411-413 | a key-down event leaves the keyboard flags equal to `Input.KeyUpdate` of the old flags with value true |
| Arena.GameArena.KeyReleased | GameArena.java:439-441 | a key-up event leaves the keyboard flags equal to `Input.KeyUpdate` of the old flags with value false |
| Arena.GameArena.MousePressed | GameArena.java:448-454 | the mouse state becomes `Input.ButtonUpdate` of the old one with the button down |
| Arena.GameArena.MouseReleased | GameArena.java:456-462 | the mouse state becomes `Input.ButtonUpdate` of the old one with the button up |
| Arena.GameArena.MouseMoved | GameArena.java:473-476 | the pointer position becomes the event's coordinates, nothing else changes |
| Arena.GameArena.MouseDragged | GameArena.java:478-481 | the pointer position becomes the event's coordinates, nothing else changes |
| Arena.GameArena.LetterPressed | GameArena.java:404-409 | no contract of its own: `letterPressed` on the letter array, delegating to `Input.LetterPressed`, whose contract and lemmas state the lookup |
| Arena.GameArena.GetArenaWidth | GameArena.java:488-490 | no contract of its own: reads `arenaWidth`, which the constructor and `SetSize` state |
| Arena.GameArena.GetArenaHeight | GameArena.java:497-499 | no contract of its own: reads `arenaHeight`, which the constructor and `SetSize` state |
| Arena.GameArena.UpPressed | GameArena.java:506-508 | no contract of its own: reads `up`, which `KeyAction` states |
| Arena.GameArena.DownPressed | GameArena.java:515-517 | no contract of its own: reads `down`, which `KeyAction` states |
| Arena.GameArena.LeftPressed | GameArena.java:524-526 | no contract of its own: reads `left`, which `KeyAction` states |
| Arena.GameArena.RightPressed | GameArena.java:533-535 | no contract of its own: reads `right`, which `KeyAction` states |
| Arena.GameArena.SpacePressed | GameArena.java:542-544 | no contract of its own: reads `space`, which `KeyAction` states |
| Arena.GameArena.EscPressed | GameArena.java:551-553 | no contract of its own: reads `esc`, which `KeyAction` states |
| Arena.GameArena.EnterPressed | GameArena.java:560-562 | no contract of its own: reads `enter`, which `KeyAction` states |
| Arena.GameArena.ShiftPressed | GameArena.java:569-571 | no contract of its own: reads `shift`, which `KeyAction` states |
| Arena.GameArena.LeftMousePressed | GameArena.java:578-580 | no contract of its own: reads `leftMouse`, which `MousePressed` and `MouseReleased` state |
| Arena.GameArena.RightMousePressed | GameArena.java:587-589 | no contract of its own: reads `rightMouse`, which `MousePressed` and `MouseReleased` state |
| Arena.GameArena.GetMousePositionX | GameArena.java:596-598 | no contract of its own: reads `mouseX`, which `MouseMoved` and `MouseDragged` state |
| Arena.GameArena.GetMousePositionY | GameArena.java:605-607 | no contract of its own: reads `mouseY`, which `MouseMoved` and `MouseDragged` state |
| Input.IsAsciiAZ | GameArena.java:394-396 | true exactly for the codes that index the 26-entry letter table (65..90) |
| Input.KeyFlag | GameArena.java:415-437 | the reference key table: a flag exactly for the eight named keys and for 65..90, and a letter code gets the in-bounds index code - 65 |
| Input.KeyFlagInjective | GameArena.java:418-436 | no two tracked key codes share a flag |
| Input.KeyUpdate | GameArena.java:415-437 | a key event keeps the letter table at 26 entries |
| Input.KeyUpdateFlag | GameArena.java:415-437 | a key event sets exactly the flag the table gives for its code to the new value and leaves every other flag alone |
| Input.UntrackedKeyUnchanged | GameArena.java:415-437 | an untracked key code changes no flag |
| Input.PressThenRelease | GameArena.java:411-441 | a press followed by a release leaves the key's flag false, the same state as a release alone |
| Input.KeyUpdateIdempotent | GameArena.java:415-437 | repeating the same key event changes nothing further |
| Input.LetterPressed | GameArena.java:404-409 | for any character tables with Java's ASCII behaviour, an ASCII key reads exactly as a plain case-insensitive lookup: 'A'..'Z' give flag key - 65, 'a'..'z' give flag key - 97, every other ASCII character gives false |
| Input.LetterCaseInsensitive | GameArena.java:404-409 | 'A'..'Z' and 'a'..'z' both read the flag of their letter |
| Input.AsciiNonLetterFalse | GameArena.java:404-409 | an ASCII character that is not a letter is never reported pressed |
| Input.LetterKeyThenLookup | GameArena.java:404-437 | after a key event for letter code c, the lookup for c and for its lower case returns the event's value |
| Input.ButtonUpdate | GameArena.java:448-462 | button 1 changes only the left flag, button 3 only the right flag, other buttons change nothing, the position never changes |
| Input.ButtonPressThenRelease | GameArena.java:448-462 | a press then a release of the same button leaves its flag false, as a release alone |

## Left out

- Window plumbing: the `JFrame` creation and its settings, listener registration, resizing the frame by its insets, the lazy lookup of the host window, `getPanel`, and the constructor's `createWindow` flag. These are calls into Swing and AWT with no logic to state.
- Rendering: `paint`, the off-screen `BufferedImage`, the background image drawing, the rendering hints and the reflection probe. These are graphics-library calls.
- The render thread `run`, its start in `init`, and the `synchronized` blocks. The model is sequential: each list operation is one atomic step.
- `setBackgroundImage` (image loading), `pause` (a sleep) and the capacity banner printed to `System.out`. Only the resulting `exiting` transition is kept.
- The empty handlers `keyTyped`, `mouseEntered`, `mouseExited` and `mouseClicked`.
- Changing a shape's layer after it has been added. Java shapes are mutable objects, and the scan reads their current layer. In the model a drawable is a value whose layer is fixed, so sortedness is stated for layers as they were when added.
- Object identity. `ArrayList.remove` compares with `equals`. The model assumes that the shape classes do not override `equals`, so that it is identity, and compares whole values, with `id` standing for the identity. If a shape class had a structural `equals`, removal could drop a different but equal object, which the model does not capture. The `GameObject` class and the shape classes are not part of this model beyond their layer.
- `Character.isLetter` and `Character.toUpperCase` are library code. They are passed to `Input.LetterPressed` as the parameter `CharTables`, and only their ASCII behaviour is fixed (`Input.AsciiAgrees`). So the model does not decide which non-ASCII letters have an upper case in 65..90 (for example U+0131, dotless i, whose upper case is 'I').
- Character domains: a Java `char` is a UTF-16 code unit, which includes lone surrogates and stops at U+FFFF. A Dafny `char` is a Unicode scalar value, which excludes surrogates and goes up to U+10FFFF. No stated result depends on the difference: every lemma about the lookup is about ASCII characters, and Java's `isLetter` is false on surrogates.
- Key codes are taken as integers. Mouse events are reduced to their button number or coordinates. Java's 32-bit `int` never overflows here: the only arithmetic is `code - 65` on codes in 65..90.
