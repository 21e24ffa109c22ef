/**
 The line editor: a text, a cursor in it and a history of earlier lines. It behaves like a text split in two at the
 cursor, for every key whose code does not end in a zero byte.
 */
module LineEdit {
  import opened Bytes
  import opened Wrappers

  const LINE_EDIT_ENTER: int := -1
  const LINE_EDIT_CANCEL: int := -2
  const STREAM_NODATA: int := -2
  const STREAM_TIMEOUT: int := 0
  const ESCAPE: int := 0x1b
  const TKEY_BACKSPACE: int := 0x08
  const TKEY_ERASE: int := 0x7f
  const TKEY_ENTER: int := 10
  const TKEY_UP: int := 0x141
  const TKEY_DOWN: int := 0x142
  const TKEY_LEFT: int := 0x143
  const TKEY_RIGHT: int := 0x144
  const TKEY_HOME: int := 0x145
  const TKEY_END: int := 0x146
  const TKEY_DELETE: int := 0x14B

  type text = s: seq<byte> | 0 !in s witness []

  /** The place in the history that is shown: none, the list's head, or an entry. */
  datatype Mark = Nowhere | AtHead | At(i: nat)

  datatype Keeping = NoHistory | History(lines: seq<text>, side: Mark)

  /** The editor as a value: the text in front of the cursor and behind it, and the history. */
  datatype Editor = Editor(before: text, after: text, kept: Keeping)

  function Text(e: Editor): text { e.before + e.after }

  predicate IsCommand(c: int) {
    c == STREAM_NODATA || c == ESCAPE || c == STREAM_TIMEOUT || c == TKEY_UP || c == TKEY_DOWN || c == TKEY_LEFT
      || c == TKEY_RIGHT
    || c == TKEY_HOME || c == TKEY_END || c == TKEY_DELETE || c == TKEY_BACKSPACE || c == TKEY_ERASE || c == TKEY_ENTER
  }

  /** A key that is stored as a zero byte, which ends the text where it stands. */
  predicate Spoils(c: int) { !IsCommand(c) && U8(c) == 0 }

  /** The mark one entry further back. */
  function Back(lines: seq<text>, side: Mark): Mark {
    match side
    case Nowhere => if lines == [] then AtHead else At(|lines| - 1)
    case AtHead => if lines == [] then Nowhere else At(|lines| - 1)
    case At(i) => if i > 0 then At(i - 1) else side
  }

  function Forth(lines: seq<text>, side: Mark): Mark {
    match side
    case Nowhere => Nowhere
    case AtHead => if lines == [] then Nowhere else At(0)
    case At(i) => if i + 1 < |lines| then At(i + 1) else Nowhere
  }

  predicate MarkValid(k: Keeping) { k.History? && k.side.At? ==> k.side.i < |k.lines| }

  /** The text of a mark; the head and no entry have none. */
  function Shown(k: Keeping): text
    requires MarkValid(k)
  {
    if k.History? && k.side.At? then k.lines[k.side.i] else []
  }

  function Recall(k: Keeping): Editor
    requires MarkValid(k)
  {
    Editor(Shown(k), [], k)
  }

  /** What a key does. */
  function Press(e: Editor, noMove: bool, c: int): (r: Editor)
    requires MarkValid(e.kept) && !Spoils(c)
    ensures MarkValid(r.kept)
  {
    var b, a := e.before, e.after;
    if c == STREAM_NODATA || c == ESCAPE || c == STREAM_TIMEOUT then e
    else if c == TKEY_UP then
      if e.kept.NoHistory? then e
      else
        var k := e.kept.(side := Back(e.kept.lines, e.kept.side));
        if k.side == Nowhere then e.(kept := k) else Recall(k)
    else if c == TKEY_DOWN then
      if e.kept.NoHistory? || e.kept.side == Nowhere then e
      else Recall(e.kept.(side := Forth(e.kept.lines, e.kept.side)))
    else if c == TKEY_LEFT then
      if noMove || b == [] then e else Editor(b[..|b| - 1], [b[|b| - 1]] + a, e.kept)
    else if c == TKEY_RIGHT then
      if noMove || a == [] then e else Editor(b + [a[0]], a[1..], e.kept)
    else if c == TKEY_HOME then
      if noMove || a == [] then e else Editor([], b + a, e.kept)
    else if c == TKEY_END then
      if noMove || a == [] then e else Editor(b + a, [], e.kept)
    else if c == TKEY_DELETE then
      if a == [] then e else e.(after := a[1..])
    else if c == TKEY_BACKSPACE || c == TKEY_ERASE then
      if b == [] then e else e.(before := b[..|b| - 1])
    else if c == TKEY_ENTER then
      if e.kept.History? then e.(kept := e.kept.(side := Nowhere)) else e
    else e.(before := b + [U8(c)])
  }

  lemma PressMoves(e: Editor, noMove: bool, c: int)
    requires MarkValid(e.kept) && (c == TKEY_LEFT || c == TKEY_RIGHT || c == TKEY_HOME || c == TKEY_END)
    ensures !Spoils(c)
    ensures var b, a, r := e.before, e.after, Press(e, noMove, c);
            if noMove then r == e
            else if c == TKEY_LEFT then r == if b == [] then e else Editor(b[..|b| - 1], [b[|b| - 1]] + a, e.kept)
            else if a == [] then r == e
            else if c == TKEY_RIGHT then r == Editor(b + [a[0]], a[1..], e.kept)
            else if c == TKEY_HOME then r == Editor([], b + a, e.kept)
            else r == Editor(b + a, [], e.kept)
  {
  }

  /** A text cut at one place, one place earlier, one later, and at its ends. */
  lemma CutAt(t: text, k: nat)
    requires k <= |t|
    ensures t[..k] + t[k..] == t == t[0..] == t[..|t|] && t[..0] == t[|t|..] == []
    ensures k > 0 ==> t[..k][..k - 1] == t[..k - 1] && [t[..k][k - 1]] + t[k..] == t[k - 1..]
    ensures k < |t| ==> t[..k] + [t[k..][0]] == t[..k + 1] && t[k..][1..] == t[k + 1..]
  {
  }

  function Answer(e: Editor, c: int): int {
    if c == STREAM_NODATA || c == ESCAPE then LINE_EDIT_CANCEL
    else if c == TKEY_ENTER then LINE_EDIT_ENTER
    else |e.before|
  }

  class TLineEdit {
    var Line: text
    var Len: int
    var Cursor: int
    var NoMove: bool
    var KeepsHistory: bool     // LINE_EDIT_HISTORY
    var MaxHistory: int
    var History: Option<seq<text>>
    var Side: Mark             // History->Side

    /** The cursor is in the text, and the length is the text's. */
    predicate Valid()
      reads this
    {
      0 <= Cursor <= Len == |Line| && MarkValid(Kept())
    }

    function Kept(): Keeping
      reads this
    {
      if History.None? then NoHistory else Keeping.History(History.value, Side)
    }

    function Value(): Editor
      requires Valid()
      reads this
    {
      Editor(Line[..Cursor], Line[Cursor..], Kept())
    }

    /** LineEditCreate */
    constructor (keepsHistory: bool, noMove: bool)
      ensures Valid() && Value() == Editor([], [], if keepsHistory then Keeping.History([], Nowhere) else NoHistory)
      ensures NoMove == noMove && KeepsHistory == keepsHistory && MaxHistory == if keepsHistory then 30 else 0
    {
      Line, Len, Cursor, Side := [], 0, 0, Nowhere;
      NoMove, KeepsHistory := noMove, keepsHistory;
      MaxHistory := if keepsHistory then 30 else 0;
      History := if keepsHistory then Some([]) else None;
    }

    /** LineEditSetText */
    method SetText(t: text)
      modifies this`Line, this`Len, this`Cursor
      ensures Line == t && Len == Cursor == |t|
    {
      Line := t;
      Len := |Line|;
      Cursor := Len;
    }

    /** memmove over the character at the cursor, and the text cut to its new length. */
    method CutAtCursor()
      requires 0 <= Cursor < Len == |Line|
      modifies this`Line, this`Len
      ensures Len == |Line| == old(Len) - 1
      ensures forall i :: 0 <= i < Len ==> Line[i] == old(Line)[if i < Cursor then i else i + 1]
    {
      Line := Line[..Cursor] + Line[Cursor + 1..];
      Len := Len - 1;
    }

    method Up()
      requires Valid() && History.Some?
      modifies this
      ensures Valid() && Value() == Press(old(Value()), NoMove, TKEY_UP)
      ensures NoMove == old(NoMove) && KeepsHistory == old(KeepsHistory) && MaxHistory == old(MaxHistory)
    {
      var lines := History.value;
      if Side != Nowhere {
        if lines == [] || Side != At(0) {
          Side := Back(lines, Side);
        }
      } else {
        Side := if lines == [] then AtHead else At(|lines| - 1);
      }
      if Side != Nowhere {
        SetText(Shown(Kept()));
      }
    }

    method Down()
      requires Valid() && History.Some?
      modifies this
      ensures Valid() && Value() == Press(old(Value()), NoMove, TKEY_DOWN)
      ensures NoMove == old(NoMove) && KeepsHistory == old(KeepsHistory) && MaxHistory == old(MaxHistory)
    {
      if Side != Nowhere {
        Side := Forth(History.value, Side);
        if Side != Nowhere {
          SetText(Shown(Kept()));
        } else {
          SetText([]);
        }
      }
    }

    /**
     The default case: the key's low byte goes in at the cursor. A zero byte leaves the text, but not its length, as
     it was.
     */
    method Insert(c: int)
      requires Valid()
      modifies this`Line, this`Len, this`Cursor
      ensures U8(c) != 0 ==> Line == old(Line)[..old(Cursor)] + [U8(c)] + old(Line)[old(Cursor)..]
      ensures U8(c) == 0 ==> Line == old(Line)
      ensures Cursor == old(Cursor) + 1 && Len == old(Len) + 1
    {
      if Cursor == Len {
        Line := AddCharToBuffer(Line, Cursor, c);
      } else {
        var head := AddCharToBuffer(Line[..Cursor], Cursor, c);
        Line := head + Line[Cursor..];
      }
      Cursor := Cursor + 1;
      Len := Len + 1;
    }

    /** The keys that move the cursor; home and end only do so when it is not at the end already. */
    method Move(c: int)
      requires Valid() && (c == TKEY_LEFT || c == TKEY_RIGHT || c == TKEY_HOME || c == TKEY_END)
      modifies this`Cursor
      ensures Valid() && Value() == Press(old(Value()), NoMove, c)
    {
      hide Press;
      PressMoves(Value(), NoMove, c);
      CutAt(Line, Cursor);
      if c == TKEY_LEFT {
        if !NoMove && Cursor > 0 { Cursor := Cursor - 1; }
      } else if c == TKEY_RIGHT {
        if !NoMove && Cursor < Len { Cursor := Cursor + 1; }
      } else if c == TKEY_HOME {
        if !NoMove && Cursor < Len { Cursor := 0; }
      } else {
        if !NoMove && Cursor < Len { Cursor := Len; }
      }
    }

    /** The keys that take a character away, at the cursor or in front of it. */
    method Erase(c: int)
      requires Valid() && (c == TKEY_DELETE || c == TKEY_BACKSPACE || c == TKEY_ERASE)
      modifies this`Line, this`Len, this`Cursor
      ensures Valid() && Value() == Press(old(Value()), NoMove, c)
    {
      ghost var b, a := Line[..Cursor], Line[Cursor..];
      if c == TKEY_DELETE {
        if Cursor < Len {
          CutAtCursor();
          assert Line[..Cursor] == b && Line[Cursor..] == a[1..];
        }
      } else if Cursor > 0 {
        Cursor := Cursor - 1;
        CutAtCursor();
        assert Line[..Cursor] == b[..|b| - 1] && Line[Cursor..] == a;
      }
    }

    /** LineEditHandleChar */
    method HandleChar(c: int) returns (r: int)
      requires Valid()
      modifies this
      ensures Valid() <==> !Spoils(c)
      ensures !Spoils(c) ==> Value() == Press(old(Value()), NoMove, c) && r == Answer(Value(), c)
      ensures Spoils(c) ==> Line == old(Line) && Len == old(Len) + 1 && Cursor == old(Cursor) + 1
      ensures Spoils(c) ==> Kept() == old(Kept())
      ensures NoMove == old(NoMove) && KeepsHistory == old(KeepsHistory) && MaxHistory == old(MaxHistory)
    {
      if c == STREAM_NODATA || c == ESCAPE {
        return LINE_EDIT_CANCEL;
      } else if c == STREAM_TIMEOUT {
      } else if c == TKEY_UP {
        if History.Some? { Up(); }
      } else if c == TKEY_DOWN {
        if History.Some? { Down(); }
      } else if c == TKEY_LEFT || c == TKEY_RIGHT || c == TKEY_HOME || c == TKEY_END {
        Move(c);
      } else if c == TKEY_DELETE || c == TKEY_BACKSPACE || c == TKEY_ERASE {
        Erase(c);
      } else if c == TKEY_ENTER {
        if History.Some? { Side := Nowhere; }
        return LINE_EDIT_ENTER;
      } else {
        ghost var b, a := Line[..Cursor], Line[Cursor..];
        Insert(c);
        assert U8(c) != 0 ==> Line[..Cursor] == b + [U8(c)] && Line[Cursor..] == a;
      }
      r := Cursor;
    }

    /** ListAddNamedItem to the history, its first entry gone before if it is longer than allowed. */
    method AddToHistory(t: text)
      requires MarkValid(Kept())
      modifies this`History, this`Side
      ensures Kept() == Remember(old(Kept()), MaxHistory, t) && MarkValid(Kept())
    {
      if History.None? {
        return;
      }
      if t != [] {
        var lines := History.value;
        if MaxHistory > 0 && |lines| > MaxHistory {
          // ListDeleteNode: a mark on the entry goes with it, one on a later entry stays with that
          Side := match Side case At(i) => (if i == 0 then Nowhere else At(i - 1)) case m => m;
          lines := lines[1..];
        }
        if lines == [] || lines[|lines| - 1] != t {
          lines := lines + [t];
        }
        History := Some(lines);
      }
    }

    /** LineEditDone */
    method Done() returns (line: text)
      requires Valid()
      modifies this
      ensures Valid() && line == old(Line) && Line == []
      ensures Kept() == if KeepsHistory then Remember(old(Kept()), MaxHistory, line) else old(Kept())
      ensures NoMove == old(NoMove) && KeepsHistory == old(KeepsHistory) && MaxHistory == old(MaxHistory)
    {
      line := Line;
      if KeepsHistory {
        AddToHistory(Line);
      }
      Line, Len, Cursor := [], 0, 0;
    }
  }

  /** AddCharToBuffer on a text of that length: a zero byte ends the text where it would have been added. */
  function AddCharToBuffer(t: text, len: nat, c: int): (r: text)
    requires len == |t|
    ensures r == if U8(c) == 0 then t else t + [U8(c)]
  {
    if U8(c) == 0 then t else t + [U8(c)]
  }

  // ---------------------------------------------------------------- the history

  /**
   The history with a line added, unless it is empty or the last one again; a full one loses its first entry first.
   */
  function Remember(k: Keeping, max: int, t: text): Keeping {
    if k.NoHistory? || t == [] then k
    else
      var full := max > 0 && |k.lines| > max;
      var lines := if full then k.lines[1..] else k.lines;
      var side := if full && k.side.At? then (if k.side.i == 0 then Nowhere else At(k.side.i - 1)) else k.side;
      Keeping.History(if lines == [] || lines[|lines| - 1] != t then lines + [t] else lines, side)
  }

  /** Within its bound, and no empty lines and none twice in a row. */
  predicate Tidy(k: Keeping, max: int) {
    k.History? ==>
      && (max > 0 ==> |k.lines| <= max + 1)
      && (forall i :: 0 <= i < |k.lines| ==> k.lines[i] != [])
      && (forall i :: 1 <= i < |k.lines| ==> k.lines[i] != k.lines[i - 1])
  }

  lemma RememberKeepsTidy(k: Keeping, max: int, t: text)
    requires Tidy(k, max)
    ensures Tidy(Remember(k, max, t), max)
  {
  }

  /**
   The newest line is the last entry, and what was remembered before still is, but for the first entry of a full
   history.
   */
  lemma Remembered(k: Keeping, max: int, t: text) returns (d: nat, n: nat)
    requires k.History? && t != []
    ensures var lines := Remember(k, max, t).lines;
            && lines != [] && lines[|lines| - 1] == t
            && d <= 1 && n <= 1 && d <= |k.lines| && n <= |lines| && lines[..|lines| - n] == k.lines[d..]
  {
    var lines := Remember(k, max, t).lines;
    d := if max > 0 && |k.lines| > max then 1 else 0;
    var kept := k.lines[d..];
    n := if kept == [] || kept[|kept| - 1] != t then 1 else 0;
    assert lines[..|lines| - n] == kept;
  }

  function Presses(e: Editor, noMove: bool, keys: seq<int>): (r: Editor)
    requires MarkValid(e.kept) && forall i :: 0 <= i < |keys| ==> !Spoils(keys[i])
    ensures MarkValid(r.kept)
  {
    if keys == [] then e else Press(Presses(e, noMove, keys[..|keys| - 1]), noMove, keys[|keys| - 1])
  }

  /** Keys never change the lines of the history, only which of them is shown. */
  lemma {:induction false} KeysKeepHistory(e: Editor, noMove: bool, keys: seq<int>)
    requires MarkValid(e.kept) && forall i :: 0 <= i < |keys| ==> !Spoils(keys[i])
    ensures var r := Presses(e, noMove, keys);
            r.kept.History? == e.kept.History? && (e.kept.History? ==> r.kept.lines == e.kept.lines)
  {
    if keys != [] {
      KeysKeepHistory(e, noMove, keys[..|keys| - 1]);
    }
  }

  function Ups(n: nat): (keys: seq<int>)
    ensures |keys| == n && forall i :: 0 <= i < n ==> keys[i] == TKEY_UP
  {
    if n == 0 then [] else Ups(n - 1) + [TKEY_UP]
  }

  /** From the end of the history, n times up shows the n-th line from the end, and stops at the first. */
  lemma {:induction false} UpWalksBack(e: Editor, noMove: bool, n: nat)
    requires e.kept.History? && e.kept.side == Nowhere && e.kept.lines != [] && n > 0
    ensures var lines := e.kept.lines;
            var i := if n <= |lines| then |lines| - n else 0;
            Presses(e, noMove, Ups(n)) == Editor(lines[i], [], Keeping.History(lines, At(i)))
  {
    var keys := Ups(n);
    assert keys[..n - 1] == Ups(n - 1);
    PressedLast(e, noMove, keys);
    if n > 1 {
      UpWalksBack(e, noMove, n - 1);
    }
    hide Presses, Ups;
  }

  lemma PressedLast(e: Editor, noMove: bool, keys: seq<int>)
    requires MarkValid(e.kept) && keys != [] && forall i :: 0 <= i < |keys| ==> !Spoils(keys[i])
    ensures Presses(e, noMove, keys) == Press(Presses(e, noMove, keys[..|keys| - 1]), noMove, keys[|keys| - 1])
    ensures Presses(e, noMove, []) == e
  {
    hide Press, Spoils;
  }

  function Downs(n: nat): (keys: seq<int>)
    ensures |keys| == n && forall i :: 0 <= i < n ==> keys[i] == TKEY_DOWN
  {
    if n == 0 then [] else Downs(n - 1) + [TKEY_DOWN]
  }

  /**
   From a line of the history, going down shows the next ones in turn; below the last the line is empty, and going
   down further changes nothing.
   */
  lemma {:induction false} DownWalksForth(e: Editor, noMove: bool, i: nat, n: nat)
    requires e.kept.History? && i < |e.kept.lines| && e.kept.side == At(i) && n > 0
    ensures var lines := e.kept.lines;
            Presses(e, noMove, Downs(n)) ==
            if i + n < |lines| then Editor(lines[i + n], [], Keeping.History(lines, At(i + n)))
            else Editor([], [], Keeping.History(lines, Nowhere))
  {
    var keys := Downs(n);
    assert keys[..n - 1] == Downs(n - 1);
    PressedLast(e, noMove, keys);
    if n > 1 {
      DownWalksForth(e, noMove, i, n - 1);
    }
    hide Presses, Downs;
  }

  /** Nothing is below the line that is being written. */
  lemma DownFromTheLine(e: Editor, noMove: bool)
    requires MarkValid(e.kept) && (e.kept.NoHistory? || e.kept.side == Nowhere)
    ensures Press(e, noMove, TKEY_DOWN) == e
  {
  }

  /** What is returned for a key: that the line is done or given up, or where the cursor is. */
  lemma KeyAnswers(e: Editor, c: int)
    ensures Answer(e, c) == if c == TKEY_ENTER then -1 else if c == ESCAPE || c == STREAM_NODATA then -2 else |e.before|
  {
  }

  /** In an empty history, going up marks the list's head and clears the line. */
  lemma UpInEmptyHistory(e: Editor, noMove: bool)
    requires e.kept.History? && e.kept.side == Nowhere && e.kept.lines == []
    ensures Press(e, noMove, TKEY_UP) == Editor([], [], Keeping.History([], AtHead))
  {
  }

  // ---------------------------------------------------------------- editing

  /** One character comes in at the cursor, or goes on one side of it; nothing else changes. */
  lemma OneCharacter(e: Editor, noMove: bool, c: int)
    requires MarkValid(e.kept) && !Spoils(c)
    ensures var t, k, r := Text(e), |e.before|, Press(e, noMove, c);
            && (!IsCommand(c) ==> Text(r) == t[..k] + [U8(c)] + t[k..] && |r.before| == k + 1)
            && (c == TKEY_DELETE ==> |r.before| == k && Text(r) == if k < |t| then t[..k] + t[k + 1..] else t)
            && (c == TKEY_BACKSPACE || c == TKEY_ERASE ==>
                  if k > 0 then |r.before| == k - 1 && Text(r) == t[..k - 1] + t[k..] else r == e)
            && (c == TKEY_LEFT || c == TKEY_RIGHT || c == TKEY_HOME || c == TKEY_END ==> Text(r) == t)
            && (c == TKEY_LEFT ==> |r.before| == if noMove || k == 0 then k else k - 1)
            && (c == TKEY_RIGHT ==> |r.before| == if noMove || k == |t| then k else k + 1)
            && (c == TKEY_HOME ==> |r.before| == if noMove || k == |t| then k else 0)
            && (c == TKEY_END ==> |r.before| == if noMove then k else |t|)
            && (c == TKEY_ENTER || c == ESCAPE || c == STREAM_TIMEOUT || c == STREAM_NODATA ==>
                  Text(r) == t && |r.before| == k)
  {
  }

  /** Typing a character and taking it back leaves everything as it was; so does going left and right again. */
  lemma Undone(e: Editor, noMove: bool, c: int)
    requires MarkValid(e.kept)
    ensures !IsCommand(c) && !Spoils(c) ==> Press(Press(e, noMove, c), noMove, TKEY_BACKSPACE) == e
    ensures !noMove && e.before != [] ==> Press(Press(e, noMove, TKEY_LEFT), noMove, TKEY_RIGHT) == e
  {
    var b, a := e.before, e.after;
    if b != [] {
      assert b[..|b| - 1] + [b[|b| - 1]] == b;
      assert ([b[|b| - 1]] + a)[1..] == a;
    }
  }

  /** Home leaves the cursor where it is exactly when it cannot move, or is at the end, or at the start already. */
  lemma HomeAtEndStays(e: Editor, noMove: bool)
    requires MarkValid(e.kept)
    ensures |Press(e, noMove, TKEY_HOME).before| == |e.before| <==> noMove || e.after == [] || e.before == []
  {
  }
}
