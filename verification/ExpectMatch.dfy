/**
 How one expect dialog watches for its text: a counter of matched characters that falls back to the first character
 and no further. When that is enough to notice the first occurrence, for every text, is decided by the expected string.
 */
module ExpectMatch {
  import opened Bytes

  type cstring = s: seq<byte> | 0 !in s witness []

  /** What comparing a plain char with a character read, 0 to 255, sees: a byte above 127 is negative. */
  function Signed(b: byte): int { if b >= 128 then b - 256 else b }

  /** The character at position m, the terminating zero at the end. */
  function At(e: cstring, m: nat): int {
    if m < |e| then Signed(e[m]) else 0
  }

  /** How much is matched, and whether everything has been. */
  datatype Progress = Progress(matched: nat, done: bool)

  function Advance(e: cstring, p: Progress, c: byte): Progress {
    var m := if At(e, p.matched) != c then 0 else p.matched;
    if At(e, m) != c then Progress(m, p.done)
    else if At(e, m + 1) == 0 then Progress(0, true)
    else Progress(m + 1, p.done)
  }

  /** A watch that ends with the first match. */
  function Watch(e: cstring, text: seq<byte>): Progress {
    if text == [] then Progress(0, false)
    else
      var p := Watch(e, text[..|text| - 1]);
      if p.done then p else Advance(e, p, text[|text| - 1])
  }

  predicate EndsWith(text: seq<byte>, s: seq<byte>) {
    |s| <= |text| && text[|text| - |s|..] == s
  }

  predicate Occurs(text: seq<byte>, s: seq<byte>) {
    exists k :: |s| <= k <= |text| && EndsWith(text[..k], s)
  }

  predicate Characters(text: seq<byte>) { 0 !in text }

  lemma EndsWithMore(text: seq<byte>, s: seq<byte>, n: nat)
    requires text != [] && n < |s|
    ensures EndsWith(text, s[..n + 1]) <==> EndsWith(text[..|text| - 1], s[..n]) && text[|text| - 1] == s[n]
  {
    var t := text[..|text| - 1];
    if n <= |t| {
      assert text[|text| - (n + 1)..] == t[|t| - n..] + [text[|text| - 1]];
      assert s[..n + 1] == s[..n] + [s[n]];
    }
  }

  lemma OccursLater(text: seq<byte>, s: seq<byte>)
    requires text != []
    ensures Occurs(text, s) <==> Occurs(text[..|text| - 1], s) || EndsWith(text, s)
  {
    var t := text[..|text| - 1];
    assert forall k :: 0 <= k <= |t| ==> t[..k] == text[..k];
    assert text[..|text|] == text;
  }

  /** What a watch that has not succeeded yet has matched is the end of the text; success means an occurrence. */
  lemma {:induction false} WatchIsHonest(e: cstring, text: seq<byte>)
    requires Characters(text)
    ensures var p := Watch(e, text);
            if p.done then e != [] && p.matched == 0 && Occurs(text, e)
            else (e == [] ==> p.matched == 0) && (e != [] ==> p.matched < |e|) && EndsWith(text, e[..p.matched])
  {
    if text != [] {
      var t := text[..|text| - 1];
      WatchIsHonest(e, t);
      OccursLater(text, e);
      var p := Watch(e, t);
      if !p.done && e != [] {
        assert e[..|e|] == e;
        EndsWithMore(text, e, p.matched);
        EndsWithMore(text, e, 0);
        assert EndsWith(t, e[..0]);
      }
    }
  }

  // ---------------------------------------------------------------- when no occurrence is missed

  /** A mismatch at position k can come while the last b characters are a start of e that the character continues. */
  predicate FalseStart(e: seq<byte>, b: nat, k: nat) {
    1 <= b < k < |e| && e[..b] == e[k - b..k] && e[b] != e[k]
  }

  ghost predicate Watchable(e: cstring) {
    e != [] && (forall i :: 0 <= i < |e| ==> e[i] < 128) && (forall b, k :: !FalseStart(e, b, k))
  }

  /** Two starts of e end the text, and e goes on differently after them. */
  lemma TwoStarts(text: seq<byte>, e: seq<byte>, b: nat, m: nat)
    requires 1 <= b <= m < |e| && EndsWith(text, e[..b]) && EndsWith(text, e[..m]) && e[b] != e[m]
    ensures FalseStart(e, b, m)
  {
    assert text[|text| - m..][m - b..] == text[|text| - b..];
    assert e[..m][m - b..] == e[m - b..m];
  }

  /** No longer start of e than the first m characters ends the text. */
  ghost predicate Longest(text: seq<byte>, e: seq<byte>, m: nat) {
    m <= |e| && EndsWith(text, e[..m]) && forall j :: m < j <= |e| ==> !EndsWith(text, e[..j])
  }

  /** After a mismatch at m, no start longer than one character can end the text. */
  lemma Fallback(e: cstring, t: seq<byte>, m: nat, text: seq<byte>)
    requires Watchable(e) && text != [] && t == text[..|text| - 1] && m < |e|
    requires Longest(t, e, m) && e[m] != text[|text| - 1]
    ensures Longest(text, e, if e[0] == text[|text| - 1] then 1 else 0)
  {
    var c := text[|text| - 1];
    forall j | 1 <= j <= |e| && EndsWith(text, e[..j])
      ensures j == 1 && e[0] == c
    {
      EndsWithMore(text, e, j - 1);
      if j > 1 {
        TwoStarts(t, e, j - 1, m);
      }
    }
    EndsWithMore(text, e, 0);
    assert EndsWith(t, e[..0]) && EndsWith(text, e[..0]);
  }

  lemma Further(e: cstring, t: seq<byte>, m: nat, text: seq<byte>)
    requires text != [] && t == text[..|text| - 1] && m < |e|
    requires Longest(t, e, m) && e[m] == text[|text| - 1]
    ensures Longest(text, e, m + 1)
  {
    forall j | m + 1 < j <= |e|
      ensures !EndsWith(text, e[..j])
    {
      EndsWithMore(text, e, j - 1);
    }
    EndsWithMore(text, e, m);
  }

  lemma AdvanceWatchable(e: cstring, m: nat, c: byte)
    requires Watchable(e) && m < |e| && c > 0
    ensures Advance(e, Progress(m, false), c) ==
            if e[m] == c then (if m + 1 == |e| then Progress(0, true) else Progress(m + 1, false))
            else if e[0] == c then (if |e| == 1 then Progress(0, true) else Progress(1, false))
            else Progress(0, false)
  {
  }

  lemma StepIsExact(e: cstring, t: seq<byte>, m: nat, text: seq<byte>)
    requires Watchable(e) && Longest(t, e, m) && m < |e|
    requires text != [] && t == text[..|text| - 1] && text[|text| - 1] > 0
    ensures var p := Advance(e, Progress(m, false), text[|text| - 1]);
            (p.done <==> EndsWith(text, e)) && (!p.done ==> p.matched < |e| && Longest(text, e, p.matched))
  {
    hide Watchable, Longest, EndsWith, Advance;
    WatchableIsSome(e);
    var c := text[|text| - 1];
    AdvanceWatchable(e, m, c);
    if e[m] == c {
      Further(e, t, m, text);
      LongestIsWhole(text, e, m + 1);
    } else {
      Fallback(e, t, m, text);
      LongestIsWhole(text, e, if e[0] == c then 1 else 0);
    }
  }

  /** For a watchable string the counter is the longest start of it that ends the text, and no occurrence is missed. */
  lemma {:induction false} WatchIsExact(e: cstring, text: seq<byte>)
    requires Watchable(e) && Characters(text)
    ensures Watch(e, text).done <==> Occurs(text, e)
    ensures !Watch(e, text).done ==> Watch(e, text).matched < |e| && Longest(text, e, Watch(e, text).matched)
  {
    if text == [] {
      WatchableIsSome(e);
    } else {
      hide Watchable, Longest, EndsWith, Occurs, Advance;
      var t := text[..|text| - 1];
      WatchIsExact(e, t);
      OccursLater(text, e);
      var p := Watch(e, t);
      if !p.done {
        StepIsExact(e, t, p.matched, text);
        assert p == Progress(p.matched, false);
      }
    }
  }

  lemma WatchableIsSome(e: cstring)
    requires Watchable(e)
    ensures e != []
  {
  }

  lemma LongestIsWhole(text: seq<byte>, e: seq<byte>, m: nat)
    requires Longest(text, e, m)
    ensures EndsWith(text, e) <==> m == |e|
  {
    assert e[..|e|] == e;
  }

  // ---------------------------------------------------------------- otherwise one is

  /** A byte above 127 in the expected string is never matched. */
  lemma {:induction false} HighByteBlocks(e: cstring, i: nat, text: seq<byte>)
    requires i < |e| && e[i] >= 128 && Characters(text)
    ensures !Watch(e, text).done && Watch(e, text).matched <= i
  {
    if text != [] {
      HighByteBlocks(e, i, text[..|text| - 1]);
    }
  }

  /** One character matches at most one more. */
  lemma {:induction false} SlowGrowth(e: cstring, t: seq<byte>, u: seq<byte>)
    requires Characters(t) && Characters(u) && !Watch(e, t).done && Watch(e, t).matched + |u| < |e|
    ensures !Watch(e, t + u).done && Watch(e, t + u).matched <= Watch(e, t).matched + |u|
  {
    if u == [] {
      assert t + u == t;
    } else {
      var v := u[..|u| - 1];
      assert (t + u)[..|t + u| - 1] == t + v;
      SlowGrowth(e, t, v);
    }
  }

  lemma {:induction false} WatchPrefix(e: cstring, j: nat)
    requires j < |e| && forall i :: 0 <= i < |e| ==> e[i] < 128
    ensures Watch(e, e[..j]) == Progress(j, false)
  {
    if j > 0 {
      assert e[..j][..j - 1] == e[..j - 1];
      WatchPrefix(e, j - 1);
    }
  }

  /** The text that is missed because of a false start: the mismatch, and the rest of an occurrence after it. */
  function Trap(e: seq<byte>, b: nat, k: nat): seq<byte>
    requires b <= |e| && k <= |e|
  {
    e[..k] + e[b..]
  }

  lemma TrapHolds(e: seq<byte>, b: nat, k: nat)
    requires FalseStart(e, b, k)
    ensures Occurs(Trap(e, b, k), e)
  {
    var text := Trap(e, b, k);
    assert text[k - b..] == e[k - b..k] + e[b..] == e;
    assert text[..|text|] == text;
    assert EndsWith(text[..|text|], e);
  }

  lemma MismatchFallsBack(e: cstring, k: nat, c: byte)
    requires 1 <= k < |e| && e[k] != c && c > 0 && forall i :: 0 <= i < |e| ==> e[i] < 128
    ensures !Watch(e, e[..k] + [c]).done && Watch(e, e[..k] + [c]).matched <= 1
  {
    WatchPrefix(e, k);
    var t := e[..k] + [c];
    assert t[..|t| - 1] == e[..k];
  }

  lemma TrapWorks(e: cstring, b: nat, k: nat)
    requires FalseStart(e, b, k) && forall i :: 0 <= i < |e| ==> e[i] < 128
    ensures Characters(Trap(e, b, k)) && !Watch(e, Trap(e, b, k)).done
  {
    hide Watch;
    MismatchFallsBack(e, k, e[b]);
    SlowGrowth(e, e[..k] + [e[b]], e[b + 1..]);
    assert e[..k] + [e[b]] + e[b + 1..] == Trap(e, b, k);
  }

  lemma WholeOccurs(e: seq<byte>)
    ensures Occurs(e, e)
  {
    assert EndsWith(e[..|e|], e);
  }

  ghost predicate NeverMisses(e: cstring) {
    forall text :: Characters(text) ==> (Watch(e, text).done <==> Occurs(text, e))
  }

  /** A dialog notices the first occurrence in every text exactly when its expected string is watchable. */
  lemma ExactIffWatchable(e: cstring)
    ensures NeverMisses(e) <==> Watchable(e)
  {
    hide Occurs;
    if Watchable(e) {
      forall text | Characters(text)
        ensures Watch(e, text).done <==> Occurs(text, e)
      {
        WatchIsExact(e, text);
      }
    } else if e == [] {
      WholeOccurs(e);
      assert Characters(e) && !Watch(e, e).done;
    } else if i :| 0 <= i < |e| && e[i] >= 128 {
      WholeOccurs(e);
      HighByteBlocks(e, i, e);
      assert Characters(e);
    } else {
      var b, k :| FalseStart(e, b, k);
      TrapHolds(e, b, k);
      TrapWorks(e, b, k);
      assert Characters(Trap(e, b, k));
    }
  }

  /** In particular it is when the first character does not come again. */
  lemma FirstCharacterOnce(e: cstring)
    requires e != [] && e[0] !in e[1..] && forall i :: 0 <= i < |e| ==> e[i] < 128
    ensures NeverMisses(e)
  {
    hide NeverMisses;
    forall b, k
      ensures !FalseStart(e, b, k)
    {
      if FalseStart(e, b, k) {
        FalseStartRepeats(e, b, k);
      }
    }
    ExactIffWatchable(e);
  }

  lemma FalseStartRepeats(e: seq<byte>, b: nat, k: nat)
    requires FalseStart(e, b, k)
    ensures e[0] in e[1..]
  {
    assert e[0] == e[..b][0] == e[k - b..k][0] == e[k - b] == e[1..][k - b - 1];
  }

  /** "aab" goes unnoticed in "aaab". */
  lemma AabIsMissed()
    ensures Occurs([97, 97, 97, 98], [97, 97, 98]) && !Watch([97, 97, 98], [97, 97, 97, 98]).done
  {
    var e: cstring := [97, 97, 98];
    assert e[..1] == e[2 - 1..2];
    assert FalseStart(e, 1, 2);
    TrapHolds(e, 1, 2);
    TrapWorks(e, 1, 2);
    assert Trap(e, 1, 2) == [97, 97, 97, 98];
  }
}
