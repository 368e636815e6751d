/**
 * The client's one-line text inputs (`InputText`), the terminal cursor slot
 * a widget fills in while rendering (`Cursor`), and the arithmetic that
 * centres a box of a given size on the screen (`centered_area`).
 *
 * Text is a sequence of characters of one byte each, so the byte positions
 * of the source are character positions here.
 */
module Input {
  import opened Wrappers

  /** The place a widget asks the terminal to show its cursor at, if any. */
  class Cursor {
    var pos: Option<(U16, U16)>

    /** `Cursor::default`: no position. */
    constructor ()
      ensures pos == None
    {
      pos := None;
    }

    /** `set`: remember the position, replacing any earlier one. */
    method Set(x: U16, y: U16)
      modifies this
      ensures pos == Some((x, y))
    {
      pos := Some((x, y));
    }

    /** `take`: hand out the position and forget it, so a second `take` yields None. */
    method Take() returns (r: Option<(U16, U16)>)
      modifies this
      ensures r == old(pos) && pos == None
    {
      r := pos;
      pos := None;
    }
  }

  /** The keys an input reacts to; `Other` stands for every other key code. */
  datatype KeyCode = Home | End | Char(ch: char) | Backspace | Left | Right | Other

  /** The text of an input together with the position of its cursor. */
  datatype Line = Line(content: string, cursor: nat)
  {
    /** The cursor lies within the text, at most just past its last character. */
    predicate Valid() {
      cursor <= |content|
    }

    /** The text before the cursor. */
    function Before(): string
      requires Valid()
    {
      content[..cursor]
    }

    /** The text from the cursor on. */
    function After(): string
      requires Valid()
    {
      content[cursor..]
    }
  }

  /**
   * The effect of one key on a focused input. Typing adds the character at
   * the end of the text before the cursor; Backspace drops the last
   * character before the cursor; the movement keys only move the cursor,
   * clamped to the text; every other key does nothing.
   */
  function KeyEdit(line: Line, code: KeyCode): (r: Line)
    requires line.Valid()
    ensures r.Valid()
    ensures code.Char? ==> r.Before() == line.Before() + [code.ch] && r.After() == line.After()
    ensures code.Backspace? && line.cursor > 0 ==>
      r.Before() + [line.content[line.cursor - 1]] == line.Before() && r.After() == line.After()
    ensures !code.Char? && !code.Backspace? ==> r.content == line.content
    ensures code.Backspace? && line.cursor == 0 ==> r == line
    ensures code.Home? ==> r.cursor == 0
    ensures code.End? ==> r.cursor == |line.content|
    ensures code.Left? ==> r.cursor == if line.cursor > 0 then line.cursor - 1 else 0
    ensures code.Right? ==> r.cursor == if line.cursor < |line.content| then line.cursor + 1 else line.cursor
    ensures code.Other? ==> r == line
  {
    var Line(content, cursor) := line;
    match code
    case Home => Line(content, 0)
    case End => Line(content, |content|)
    case Char(ch) =>
      var r := Line(content[..cursor] + [ch] + content[cursor..], cursor + 1);
      assert r.Before() == content[..cursor] + [ch];
      r
    case Backspace =>
      if cursor > 0 then
        var r := Line(content[..cursor - 1] + content[cursor..], cursor - 1);
        assert r.Before() == content[..cursor - 1];
        assert content[..cursor - 1] + [content[cursor - 1]] == content[..cursor];
        r
      else line
    case Left => if cursor > 0 then Line(content, cursor - 1) else line
    case Right => if cursor < |content| then Line(content, cursor + 1) else line
    case Other => line
  }

  /** Backspace right after typing a character takes the input back to where it was. */
  lemma BackspaceUndoesChar(line: Line, ch: char)
    requires line.Valid()
    ensures KeyEdit(KeyEdit(line, Char(ch)), Backspace) == line
  {
    var typed := KeyEdit(line, Char(ch));
    var back := KeyEdit(typed, Backspace);
    assert back.Before() == line.Before();
    assert back.content == back.Before() + back.After();
    assert line.content == line.Before() + line.After();
  }

  /** Typing characters one after another appends them, in order, to the text before the cursor. */
  lemma {:induction false} TypingAppends(line: Line, text: string)
    requires line.Valid()
    ensures TypeAll(line, text).Before() == line.Before() + text
    ensures TypeAll(line, text).After() == line.After()
    decreases |text|
  {
    if text != [] {
      TypingAppends(KeyEdit(line, Char(text[0])), text[1..]);
      assert [text[0]] + text[1..] == text;
    }
  }

  /** The input after the key codes `Char(c)` for each `c` of `text`, in order. */
  function TypeAll(line: Line, text: string): (r: Line)
    requires line.Valid()
    ensures r.Valid()
    decreases |text|
  {
    if text == [] then line else TypeAll(KeyEdit(line, Char(text[0])), text[1..])
  }

  /** A line input: its text, the cursor position in it, and whether it has the keyboard. */
  class InputText {
    var content: string
    var cursorPosition: nat
    var inFocus: bool

    predicate Valid()
      reads this
    {
      cursorPosition <= |content|
    }

    function AsLine(): Line
      reads this
    {
      Line(content, cursorPosition)
    }

    /** `InputText::default`: empty, cursor at 0, unfocused. */
    constructor ()
      ensures Valid()
      ensures content == "" && cursorPosition == 0 && !inFocus
    {
      content := "";
      cursorPosition := 0;
      inFocus := false;
    }

    /** `on_key_event`: a focused input reacts to the key as `KeyEdit` says; an unfocused one ignores it. */
    method OnKeyEvent(code: KeyCode)
      requires Valid()
      modifies this`content, this`cursorPosition
      ensures Valid()
      ensures old(inFocus) ==> AsLine() == KeyEdit(old(AsLine()), code)
      ensures !old(inFocus) ==> content == old(content) && cursorPosition == old(cursorPosition)
    {
      if inFocus {
        match code {
          case Home => cursorPosition := 0;
          case End => cursorPosition := |content|;
          case Char(ch) =>
            content := content[..cursorPosition] + [ch] + content[cursorPosition..];
            cursorPosition := cursorPosition + 1;
          case Backspace =>
            if cursorPosition > 0 {
              cursorPosition := cursorPosition - 1;
              content := content[..cursorPosition] + content[cursorPosition + 1..];
            }
          case Left =>
            if cursorPosition > 0 {
              cursorPosition := cursorPosition - 1;
            }
          case Right =>
            if cursorPosition < |content| {
              cursorPosition := cursorPosition + 1;
            }
          case Other =>
        }
      }
    }

    /** `focus`: give or take the keyboard. */
    method Focus(focus: bool)
      modifies this`inFocus
      ensures inFocus == focus
    {
      inFocus := focus;
    }

    function Content(): string
      reads this
    {
      content
    }

    function Cursor(): nat
      reads this
    {
      cursorPosition
    }

    function HasFocus(): bool
      reads this
    {
      inFocus
    }

    /** `set_content`: replace the text and put the cursor at its end. */
    method SetContent(s: string)
      modifies this`content, this`cursorPosition
      ensures Valid()
      ensures content == s && cursorPosition == |s|
    {
      content := s;
      cursorPosition := |content|;
    }

    /** `drain`: hand out the text, leaving the input empty with the cursor at 0. */
    method Drain() returns (s: string)
      modifies this`content, this`cursorPosition
      ensures Valid()
      ensures s == old(content) && content == "" && cursorPosition == 0
    {
      s := content;
      content := "";
      cursorPosition := 0;
    }
  }

  /** A screen area: the top left corner and the size, in terminal cells. */
  datatype Rect = Rect(x: U16, y: U16, width: U16, height: U16)

  /** An unsigned 16-bit value reinterpreted as a signed one (`as i16`). */
  function AsI16(v: U16): (r: int)
    ensures -0x8000 <= r < 0x8000
    ensures (r - v) % 0x1_0000 == 0
  {
    if v < 0x8000 then v else v - 0x1_0000
  }

  /** Signed 16-bit wrap-around of an exact result. */
  function WrapI16(v: int): (r: int)
    ensures -0x8000 <= r < 0x8000
    ensures -0x8000 <= v < 0x8000 ==> r == v
  {
    (v + 0x8000) % 0x1_0000 - 0x8000
  }

  /** Unsigned 16-bit wrap-around of an exact result. */
  function WrapU16(v: int): U16 {
    v % 0x1_0000
  }

  function Min(a: U16, b: U16): (m: U16)
    ensures m <= a && m <= b && (m == a || m == b)
  {
    if a <= b then a else b
  }

  /**
   * `centered_area`: a box of at most `dimension` cells, centred in `rect`
   * in each direction where `rect` is larger, and at 0 in a direction where
   * it is not. The differences are taken as signed 16-bit values and the
   * offset added as an unsigned one, both wrapping as a release build does.
   */
  function CenteredArea(dimension: (U16, U16), rect: Rect): (r: Rect)
    ensures r.width == Min(dimension.0, rect.width) && r.height == Min(dimension.1, rect.height)
  {
    var widthDiff := WrapI16(AsI16(rect.width) - AsI16(dimension.0));
    var heightDiff := WrapI16(AsI16(rect.height) - AsI16(dimension.1));
    var x := if widthDiff > 0 then WrapU16(rect.x + widthDiff / 2) else 0;
    var y := if heightDiff > 0 then WrapU16(rect.y + heightDiff / 2) else 0;
    var width := if rect.width > dimension.0 then dimension.0 else rect.width;
    var height := if rect.height > dimension.1 then dimension.1 else rect.height;
    Rect(x, y, width, height)
  }

  /** The offset `centered_area` gives along one axis, for sizes below 2^15. */
  lemma CenteredOffset(start: U16, size: U16, want: U16)
    requires size < 0x8000 && want < 0x8000 && start + size < 0x1_0000
    ensures var diff := WrapI16(AsI16(size) - AsI16(want));
      (diff > 0 <==> size > want) &&
      (size > want ==> start + diff / 2 == start + (size - want) / 2 < 0x1_0000)
  {
  }

  /**
   * On a screen whose sizes are below 2^15, `centered_area` puts the box
   * at half the spare room from the start of `rect` where `rect` is
   * larger, and at 0 (not at the start of `rect`) where it is not. The box
   * then lies within `rect` whenever `rect` starts at the origin, as the
   * whole terminal does, and its two margins differ by at most one cell.
   */
  lemma CenteredAreaPlacement(dimension: (U16, U16), rect: Rect)
    requires rect.width < 0x8000 && rect.height < 0x8000 && dimension.0 < 0x8000 && dimension.1 < 0x8000
    requires rect.x + rect.width < 0x1_0000 && rect.y + rect.height < 0x1_0000
    ensures var r := CenteredArea(dimension, rect);
      && r.x == (if rect.width > dimension.0 then rect.x + (rect.width - dimension.0) / 2 else 0)
      && r.y == (if rect.height > dimension.1 then rect.y + (rect.height - dimension.1) / 2 else 0)
    ensures var r := CenteredArea(dimension, rect);
      rect.x == 0 && rect.y == 0 ==> r.x + r.width <= rect.width && r.y + r.height <= rect.height
    ensures var r := CenteredArea(dimension, rect);
      rect.width > dimension.0 ==>
        var left := r.x - rect.x;
        var right := rect.x + rect.width - (r.x + r.width);
        0 <= left && 0 <= right - left <= 1
  {
    CenteredOffset(rect.x, rect.width, dimension.0);
    CenteredOffset(rect.y, rect.height, dimension.1);
  }
}
