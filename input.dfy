/** The arena's input bookkeeping as values: which key code sets which
    flag, the case-insensitive A-Z lookup, and the mouse button flags.

    Module Arena keeps these flags in fields of the arena object and
    proves its event handlers against the functions here. */
module Input {

  datatype Option<T> = None | Some(value: T)

  // Java's KeyEvent codes for the tracked keys.
  const VK_ENTER: int := 10
  const VK_SHIFT: int := 16
  const VK_ESCAPE: int := 27
  const VK_SPACE: int := 32
  const VK_LEFT: int := 37
  const VK_UP: int := 38
  const VK_RIGHT: int := 39
  const VK_DOWN: int := 40

  /** The code of 'A'; the codes of the letter keys 'A'..'Z' equal their ASCII values. */
  const ASCII_AZ_OFFSET: int := 65
  /** As in the source, this is the LAST index of the letter table, not its size. */
  const ALPHABET_LENGTH: int := 25
  /** The size of the letter table. */
  const LETTERS: nat := 26

  // Java's MouseEvent button numbers for the left and right buttons.
  const BUTTON1: int := 1
  const BUTTON3: int := 3

  /** `isAsciiAZ`: exactly the codes that index the 26-entry letter table. */
  function IsAsciiAZ(v: int): (r: bool)
    ensures r <==> 0 <= v - ASCII_AZ_OFFSET < LETTERS
  {
    v >= ASCII_AZ_OFFSET && v <= ASCII_AZ_OFFSET + ALPHABET_LENGTH
  }

  /** One input flag of the arena. `Alpha(i)` is the flag of the i-th letter. */
  datatype Flag = Up | Down | Left | Right | Space | Shift | Esc | Enter | Alpha(index: nat)

  predicate FlagInRange(f: Flag) {
    f.Alpha? ==> f.index < LETTERS
  }

  /** The reference key table: the flag a key code stands for, if any. */
  function KeyFlag(code: int): (r: Option<Flag>)
    ensures r.Some? <==> code in {VK_UP, VK_DOWN, VK_LEFT, VK_RIGHT, VK_SPACE, VK_SHIFT, VK_ESCAPE, VK_ENTER}
                         || 65 <= code <= 90
    ensures r.Some? ==> FlagInRange(r.value)
    ensures r.Some? && r.value.Alpha? ==> r.value.index == code - ASCII_AZ_OFFSET
  {
    if code == VK_UP then Some(Up)
    else if code == VK_DOWN then Some(Down)
    else if code == VK_LEFT then Some(Left)
    else if code == VK_RIGHT then Some(Right)
    else if code == VK_SPACE then Some(Space)
    else if code == VK_SHIFT then Some(Shift)
    else if code == VK_ESCAPE then Some(Esc)
    else if code == VK_ENTER then Some(Enter)
    else if IsAsciiAZ(code) then Some(Alpha(code - ASCII_AZ_OFFSET))
    else None
  }

  /** No two tracked key codes share a flag. */
  lemma KeyFlagInjective(c1: int, c2: int)
    requires KeyFlag(c1).Some? && KeyFlag(c1) == KeyFlag(c2)
    ensures c1 == c2
  {
  }

  /** The keyboard flags: the eight named keys and the 26 letters. */
  datatype Keys = Keys(up: bool, down: bool, left: bool, right: bool,
                       space: bool, shift: bool, esc: bool, enter: bool,
                       alphas: seq<bool>)

  predicate WellFormed(k: Keys) {
    |k.alphas| == LETTERS
  }

  /** The value of one flag. */
  function Pressed(k: Keys, f: Flag): bool
    requires WellFormed(k) && FlagInRange(f)
  {
    match f
    case Up => k.up
    case Down => k.down
    case Left => k.left
    case Right => k.right
    case Space => k.space
    case Shift => k.shift
    case Esc => k.esc
    case Enter => k.enter
    case Alpha(i) => k.alphas[i]
  }

  /** `keyAction(code, yn)`: the code is compared against every tracked key
      in turn, and then checked for a letter; each test decides one flag. */
  function KeyUpdate(k: Keys, code: int, yn: bool): (r: Keys)
    requires WellFormed(k)
    ensures WellFormed(r)
  {
    Keys(if code == VK_UP then yn else k.up,
         if code == VK_DOWN then yn else k.down,
         if code == VK_LEFT then yn else k.left,
         if code == VK_RIGHT then yn else k.right,
         if code == VK_SPACE then yn else k.space,
         if code == VK_SHIFT then yn else k.shift,
         if code == VK_ESCAPE then yn else k.esc,
         if code == VK_ENTER then yn else k.enter,
         if IsAsciiAZ(code) then k.alphas[code - ASCII_AZ_OFFSET := yn] else k.alphas)
  }

  /** Exactly the flag the table gives for `code` becomes `yn`; every other
      flag keeps its value. */
  lemma KeyUpdateFlag(k: Keys, code: int, yn: bool, f: Flag)
    requires WellFormed(k) && FlagInRange(f)
    ensures Pressed(KeyUpdate(k, code, yn), f) == if KeyFlag(code) == Some(f) then yn else Pressed(k, f)
  {
    match f
    case Alpha(i) =>
      if IsAsciiAZ(code) {
        assert KeyUpdate(k, code, yn).alphas == k.alphas[code - ASCII_AZ_OFFSET := yn];
      }
    case _ =>
  }

  /** Two key states that agree on every flag are the same state. */
  lemma KeysExtensional(a: Keys, b: Keys)
    requires WellFormed(a) && WellFormed(b)
    requires forall f :: FlagInRange(f) ==> Pressed(a, f) == Pressed(b, f)
    ensures a == b
  {
    assert Pressed(a, Up) == Pressed(b, Up) && Pressed(a, Down) == Pressed(b, Down);
    assert Pressed(a, Left) == Pressed(b, Left) && Pressed(a, Right) == Pressed(b, Right);
    assert Pressed(a, Space) == Pressed(b, Space) && Pressed(a, Shift) == Pressed(b, Shift);
    assert Pressed(a, Esc) == Pressed(b, Esc) && Pressed(a, Enter) == Pressed(b, Enter);
    forall i | 0 <= i < LETTERS
      ensures a.alphas[i] == b.alphas[i]
    {
      assert Pressed(a, Alpha(i)) == Pressed(b, Alpha(i));
    }
    assert a.alphas == b.alphas;
  }

  /** An untracked key code changes no flag. */
  lemma UntrackedKeyUnchanged(k: Keys, code: int, yn: bool)
    requires WellFormed(k) && KeyFlag(code) == None
    ensures KeyUpdate(k, code, yn) == k
  {
    forall f | FlagInRange(f)
      ensures Pressed(KeyUpdate(k, code, yn), f) == Pressed(k, f)
    {
      KeyUpdateFlag(k, code, yn, f);
    }
    KeysExtensional(KeyUpdate(k, code, yn), k);
  }

  /** A key press followed by its release leaves the key's flag false and
      the other flags as a release alone would. */
  lemma PressThenRelease(k: Keys, code: int)
    requires WellFormed(k) && KeyFlag(code).Some?
    ensures var r := KeyUpdate(KeyUpdate(k, code, true), code, false);
      !Pressed(r, KeyFlag(code).value) && r == KeyUpdate(k, code, false)
  {
    var p := KeyUpdate(k, code, true);
    var r := KeyUpdate(p, code, false);
    forall f | FlagInRange(f)
      ensures Pressed(r, f) == Pressed(KeyUpdate(k, code, false), f)
    {
      KeyUpdateFlag(p, code, false, f);
      KeyUpdateFlag(k, code, false, f);
    }
    KeyUpdateFlag(p, code, false, KeyFlag(code).value);
    KeysExtensional(r, KeyUpdate(k, code, false));
  }

  /** Repeating a key event changes nothing further. */
  lemma KeyUpdateIdempotent(k: Keys, code: int, yn: bool)
    requires WellFormed(k)
    ensures KeyUpdate(KeyUpdate(k, code, yn), code, yn) == KeyUpdate(k, code, yn)
  {
    var p := KeyUpdate(k, code, yn);
    forall f | FlagInRange(f)
      ensures Pressed(KeyUpdate(p, code, yn), f) == Pressed(p, f)
    {
      KeyUpdateFlag(p, code, yn, f);
      KeyUpdateFlag(k, code, yn, f);
    }
    KeysExtensional(KeyUpdate(p, code, yn), p);
  }

  // ---------------------------------------------------------------------
  // Letter lookup

  /** The two Java library character functions the lookup calls, as
      parameters: `Character.isLetter` and `Character.toUpperCase`. */
  datatype CharTables = CharTables(isLetter: char -> bool, toUpperCase: char -> char)

  /** What the library functions do on ASCII characters. */
  predicate AsciiAgrees(u: CharTables) {
    (forall c: char :: c as int < 128 ==> (u.isLetter(c) <==> 'A' <= c <= 'Z' || 'a' <= c <= 'z'))
    && (forall c: char :: 'a' <= c <= 'z' ==> u.toUpperCase(c) as int == c as int - 32)
    && (forall c: char :: c as int < 128 && !('a' <= c <= 'z') ==> u.toUpperCase(c) == c)
  }

  /** `letterPressed(key)`: for a letter whose upper case is 'A'..'Z', the
      flag of that letter; false for everything else. On ASCII it is the
      plain case-insensitive table lookup. */
  function LetterPressed(alphas: seq<bool>, key: char, u: CharTables): (r: bool)
    requires |alphas| == LETTERS
    ensures AsciiAgrees(u) && key as int < 128 ==>
      r == (if 'A' <= key <= 'Z' then alphas[key as int - 65]
            else if 'a' <= key <= 'z' then alphas[key as int - 97]
            else false)
  {
    if u.isLetter(key) && IsAsciiAZ(u.toUpperCase(key) as int) then
      alphas[u.toUpperCase(key) as int - ASCII_AZ_OFFSET]
    else
      false
  }

  /** The lookup is case-insensitive on A-Z and a-z: both cases of a letter
      read the letter's flag. */
  lemma LetterCaseInsensitive(alphas: seq<bool>, i: nat, u: CharTables)
    requires |alphas| == LETTERS && i < LETTERS && AsciiAgrees(u)
    ensures LetterPressed(alphas, (65 + i) as char, u) == alphas[i]
    ensures LetterPressed(alphas, (97 + i) as char, u) == alphas[i]
  {
    var upper, lower := (65 + i) as char, (97 + i) as char;
    assert u.isLetter(upper) && u.toUpperCase(upper) == upper;
    assert u.isLetter(lower) && u.toUpperCase(lower) as int == 65 + i;
  }

  /** An ASCII character that is not a letter never reads as pressed. */
  lemma AsciiNonLetterFalse(alphas: seq<bool>, c: char, u: CharTables)
    requires |alphas| == LETTERS && AsciiAgrees(u)
    requires c as int < 128 && !('A' <= c <= 'Z') && !('a' <= c <= 'z')
    ensures !LetterPressed(alphas, c, u)
  {
    assert !u.isLetter(c);
  }

  /** A letter key event is seen by the lookup in both cases: after
      `keyAction(code, yn)` for a code in 65..90, the letter and its lower
      case read `yn`. */
  lemma LetterKeyThenLookup(k: Keys, code: int, yn: bool, u: CharTables)
    requires WellFormed(k) && 65 <= code <= 90 && AsciiAgrees(u)
    ensures LetterPressed(KeyUpdate(k, code, yn).alphas, code as char, u) == yn
    ensures LetterPressed(KeyUpdate(k, code, yn).alphas, (code + 32) as char, u) == yn
  {
    var i := code - 65;
    var r := KeyUpdate(k, code, yn);
    KeyUpdateFlag(k, code, yn, Alpha(i));
    LetterCaseInsensitive(r.alphas, i, u);
  }

  // ---------------------------------------------------------------------
  // Mouse

  /** The mouse flags and the last reported pointer position. */
  datatype Mouse = Mouse(left: bool, right: bool, x: int, y: int)

  /** `mousePressed` (down) and `mouseReleased` (not down): button 1 sets the
      left flag, button 3 the right flag; other buttons change nothing. */
  function ButtonUpdate(m: Mouse, button: int, down: bool): (r: Mouse)
    ensures r.x == m.x && r.y == m.y
    ensures button != BUTTON1 && button != BUTTON3 ==> r == m
    ensures button == BUTTON1 ==> r.left == down && r.right == m.right
    ensures button == BUTTON3 ==> r.right == down && r.left == m.left
  {
    var m1 := if button == BUTTON1 then m.(left := down) else m;
    if button == BUTTON3 then m1.(right := down) else m1
  }

  /** A press followed by a release of the same button leaves that button's
      flag false, as a release alone would. */
  lemma ButtonPressThenRelease(m: Mouse, button: int)
    ensures ButtonUpdate(ButtonUpdate(m, button, true), button, false) == ButtonUpdate(m, button, false)
    ensures button == BUTTON1 ==> !ButtonUpdate(ButtonUpdate(m, button, true), button, false).left
    ensures button == BUTTON3 ==> !ButtonUpdate(ButtonUpdate(m, button, true), button, false).right
  {
  }
}
