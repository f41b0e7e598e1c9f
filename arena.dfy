/** The arena object: its size, its draw list with the exiting flag, and
    the input flags that the keyboard and mouse handlers record. Each
    method updates the fields in place and is proved against the value
    functions of modules DrawList and Input. */
module Arena {
  import opened DrawList
  import Input

  class GameArena {
    var arenaWidth: int
    var arenaHeight: int

    var exiting: bool
    /** The draw list, painted front to back. */
    var things: seq<GameObject>

    var up: bool
    var down: bool
    var left: bool
    var right: bool
    var shift: bool
    var space: bool
    var esc: bool
    var enter: bool
    /** One flag per letter key 'A'..'Z'. */
    const alphasPressed: array<bool>
    var leftMouse: bool
    var rightMouse: bool
    var mouseX: int
    var mouseY: int

    ghost predicate Valid()
      reads this
    {
      alphasPressed.Length == Input.LETTERS && |things| <= MAX_OBJECTS + 1
    }

    /** The draw list and the exiting flag as one value. */
    ghost function State(): DrawState
      reads this
    {
      DrawState(things, exiting)
    }

    /** The keyboard flags as one value. */
    ghost function Keys(): Input.Keys
      reads this, alphasPressed
    {
      Input.Keys(up, down, left, right, space, shift, esc, enter, alphasPressed[..])
    }

    /** The mouse flags and position as one value. */
    ghost function Mouse(): Input.Mouse
      reads this
    {
      Input.Mouse(leftMouse, rightMouse, mouseX, mouseY)
    }

    /** A new arena of the given size: empty draw list, not exiting, no key
        or button held, pointer at (0, 0). */
    constructor (width: int, height: int)
      ensures Valid() && fresh(alphasPressed)
      ensures arenaWidth == width && arenaHeight == height
      ensures State() == DrawState([], false)
      ensures Keys() == Input.Keys(false, false, false, false, false, false, false, false,
                                   seq(Input.LETTERS, _ => false))
      ensures Mouse() == Input.Mouse(false, false, 0, 0)
    {
      arenaWidth, arenaHeight := width, height;
      exiting := false;
      things := [];
      up, down, left, right := false, false, false, false;
      shift, space, esc, enter := false, false, false, false;
      alphasPressed := new bool[Input.LETTERS](_ => false);
      leftMouse, rightMouse := false, false;
      mouseX, mouseY := 0, 0;
      new;
      assert alphasPressed[..] == seq(Input.LETTERS, _ => false);
    }

    /** `setSize`: records the new arena size. */
    method SetSize(width: int, height: int)
      modifies this`arenaWidth, this`arenaHeight
      ensures arenaWidth == width && arenaHeight == height
    {
      arenaWidth := width;
      arenaHeight := height;
    }

    function GetArenaWidth(): int reads this { arenaWidth }
    function GetArenaHeight(): int reads this { arenaHeight }

    /** `exit`: sets the exiting flag; nothing resets it. */
    method Exit()
      modifies this`exiting
      ensures exiting
      ensures State() == DrawList.Exit(old(State()))
    {
      exiting := true;
    }

    /** `addThing`: scans the list from the front for the first element whose
        layer is strictly greater than `layer` and inserts `o` before it, or
        appends `o`. Ignored when exiting; a list already holding more than
        MAX_OBJECTS objects makes the arena exit instead. */
    method AddThing(o: GameObject, layer: int)
      requires Valid()
      modifies this`things, this`exiting
      ensures Valid()
      ensures State() == Add(old(State()), o, layer)
      ensures Sorted(old(things)) && layer == LayerOf(o) ==> Sorted(things)
    {
      var added := false;
      ghost var s := things;

      if exiting {
        return;
      }

      if |things| > MAX_OBJECTS {
        Exit();
      } else {
        var i := 0;
        while i < |things|
          invariant 0 <= i <= |things|
          invariant things == s && !added
          invariant forall k :: 0 <= k < i ==> LayerOf(s[k]) <= layer
        {
          var l := 0;
          var obj := things[i];
          if obj.Ball? { l := obj.layer; }
          if obj.Rectangle? { l := obj.layer; }
          if obj.Line? { l := obj.layer; }
          if obj.Text? { l := obj.layer; }
          assert l == LayerOf(s[i]);

          if layer < l {
            assert i == InsertPos(s, layer);
            things := things[..i] + [o] + things[i..];
            added := true;
            break;
          }
          i := i + 1;
        }

        if !added {
          assert i == |s| == InsertPos(s, layer);
          things := things + [o];
        }
        assert things == Insert(s, o, layer);
        if Sorted(s) && layer == LayerOf(o) {
          InsertSorted(s, o);
        }
      }
    }

    /** `addBall`, `addRectangle`, `addLine`, `addText`: add a shape with its
        own layer, which keeps the draw list sorted. */
    method AddShape(o: GameObject)
      requires Valid() && !o.Other?
      modifies this`things, this`exiting
      ensures Valid()
      ensures State() == Add(old(State()), o, LayerOf(o))
      ensures Sorted(old(things)) ==> Sorted(things)
    {
      AddThing(o, o.layer);
    }

    /** `removeObject` (and the four public removers): removes the first
        element equal to `o`, whether or not the arena is exiting. */
    method RemoveObject(o: GameObject)
      requires Valid()
      modifies this`things
      ensures Valid()
      ensures State() == Remove(old(State()), o)
      ensures Sorted(old(things)) ==> Sorted(things)
    {
      if o in things {
        RemovePresent(things, o);
      } else {
        RemoveAbsent(things, o);
      }
      if Sorted(things) {
        RemoveSorted(things, o);
      }
      things := RemoveFirst(things, o);
    }

    /** `clearGameArena`: empties the draw list. */
    method ClearGameArena()
      requires Valid()
      modifies this`things
      ensures Valid()
      ensures things == []
      ensures State() == Clear(old(State()))
    {
      things := [];
    }

    // -------------------------------------------------------------------
    // Keyboard

    /** `letterPressed`: the case-insensitive A-Z lookup. */
    function LetterPressed(key: char, u: Input.CharTables): bool
      reads this, alphasPressed
      requires Valid()
    {
      Input.LetterPressed(alphasPressed[..], key, u)
    }

    /** `keyAction`: tests `code` against each tracked key in turn and sets
        that key's flag to `yn`; the codes 65..90 set their letter's flag.
        Every flag is stated on its own; `KeyPressed` and `KeyReleased`
        gather them into `Input.KeyUpdate`. */
    method KeyAction(code: int, yn: bool)
      requires Valid()
      modifies this`up, this`down, this`left, this`right, this`space, this`shift,
               this`esc, this`enter, alphasPressed
      ensures Valid()
      ensures up == (if code == Input.VK_UP then yn else old(up))
      ensures down == (if code == Input.VK_DOWN then yn else old(down))
      ensures left == (if code == Input.VK_LEFT then yn else old(left))
      ensures right == (if code == Input.VK_RIGHT then yn else old(right))
      ensures space == (if code == Input.VK_SPACE then yn else old(space))
      ensures shift == (if code == Input.VK_SHIFT then yn else old(shift))
      ensures esc == (if code == Input.VK_ESCAPE then yn else old(esc))
      ensures enter == (if code == Input.VK_ENTER then yn else old(enter))
      ensures alphasPressed[..] == if Input.IsAsciiAZ(code)
                                   then old(alphasPressed[..])[code - Input.ASCII_AZ_OFFSET := yn]
                                   else old(alphasPressed[..])
    {
      if code == Input.VK_UP { up := yn; }
      if code == Input.VK_DOWN { down := yn; }
      if code == Input.VK_LEFT { left := yn; }
      if code == Input.VK_RIGHT { right := yn; }
      if code == Input.VK_SPACE { space := yn; }
      if code == Input.VK_SHIFT { shift := yn; }
      if code == Input.VK_ESCAPE { esc := yn; }
      if code == Input.VK_ENTER { enter := yn; }
      if Input.IsAsciiAZ(code) {
        alphasPressed[code - Input.ASCII_AZ_OFFSET] := yn;
      }
    }

    /** `keyPressed`. */
    method KeyPressed(code: int)
      requires Valid()
      modifies this`up, this`down, this`left, this`right, this`space, this`shift,
               this`esc, this`enter, alphasPressed
      ensures Valid()
      ensures Keys() == Input.KeyUpdate(old(Keys()), code, true)
    {
      KeyAction(code, true);
    }

    /** `keyReleased`. */
    method KeyReleased(code: int)
      requires Valid()
      modifies this`up, this`down, this`left, this`right, this`space, this`shift,
               this`esc, this`enter, alphasPressed
      ensures Valid()
      ensures Keys() == Input.KeyUpdate(old(Keys()), code, false)
    {
      KeyAction(code, false);
    }

    function UpPressed(): bool reads this { up }
    function DownPressed(): bool reads this { down }
    function LeftPressed(): bool reads this { left }
    function RightPressed(): bool reads this { right }
    function SpacePressed(): bool reads this { space }
    function ShiftPressed(): bool reads this { shift }
    function EscPressed(): bool reads this { esc }
    function EnterPressed(): bool reads this { enter }

    // -------------------------------------------------------------------
    // Mouse

    /** `mousePressed`, for an event from the given button. */
    method MousePressed(button: int)
      modifies this`leftMouse, this`rightMouse
      ensures Mouse() == Input.ButtonUpdate(old(Mouse()), button, true)
    {
      if button == Input.BUTTON1 { leftMouse := true; }
      if button == Input.BUTTON3 { rightMouse := true; }
    }

    /** `mouseReleased`, for an event from the given button. */
    method MouseReleased(button: int)
      modifies this`leftMouse, this`rightMouse
      ensures Mouse() == Input.ButtonUpdate(old(Mouse()), button, false)
    {
      if button == Input.BUTTON1 { leftMouse := false; }
      if button == Input.BUTTON3 { rightMouse := false; }
    }

    /** `mouseMoved`: records the event's coordinates. */
    method MouseMoved(x: int, y: int)
      modifies this`mouseX, this`mouseY
      ensures mouseX == x && mouseY == y
    {
      mouseX := x;
      mouseY := y;
    }

    /** `mouseDragged`: records the event's coordinates. */
    method MouseDragged(x: int, y: int)
      modifies this`mouseX, this`mouseY
      ensures mouseX == x && mouseY == y
    {
      mouseX := x;
      mouseY := y;
    }

    function LeftMousePressed(): bool reads this { leftMouse }
    function RightMousePressed(): bool reads this { rightMouse }
    function GetMousePositionX(): int reads this { mouseX }
    function GetMousePositionY(): int reads this { mouseY }
  }
}
