/**
 Expect dialogs: a list of texts to watch a stream for, with a reply to each. Every character read is shown to the
 dialogs in order, up to the first pending one that is not optional.
 */
module Expect {
  import opened Bytes
  import opened Wrappers
  import opened ExpectMatch

  datatype DialogFlag = End | Fail | Optional | Done

  /** A dialog as a value. */
  datatype Dialog = Dialog(wanted: cstring, reply: Option<string>, flags: set<DialogFlag>, p: Progress)

  datatype Verdict = Going | Won | Lost

  /** The dialogs, which of them have replied in which order, and whether one has ended the conversation. */
  datatype Talk = Talk(ds: seq<Dialog>, sent: seq<nat>, verdict: Verdict)

  function Hear(d: Dialog, c: byte): Dialog {
    d.(p := Advance(d.wanted, d.p, c))
  }

  /** One character shown to the dialogs from number i on. */
  function Feed(ds: seq<Dialog>, i: nat, c: byte): (t: Talk)
    requires i <= |ds|
    ensures |t.ds| == |ds|
    decreases |ds| - i
  {
    if i == |ds| then Talk(ds, [], Going)
    else if ds[i].p.done then Feed(ds, i + 1, c)
    else
      var d := Hear(ds[i], c);
      var now := ds[i := d];
      var sent: seq<nat> := if d.p.done && d.reply.Some? then [i] else [];
      if d.p.done && End in d.flags then Talk(now, sent, Won)
      else if d.p.done && Fail in d.flags then Talk(now, sent, Lost)
      else if Optional !in d.flags then Talk(now, sent, Going)
      else
        var t := Feed(now, i + 1, c);
        Talk(t.ds, sent + t.sent, t.verdict)
  }

  /** The conversation once all of text has been read, or as much of it as there was a need for. */
  function After(ds: seq<Dialog>, text: seq<byte>): (t: Talk)
    ensures |t.ds| == |ds|
  {
    if text == [] then Talk(ds, [], Going)
    else
      var t := After(ds, text[..|text| - 1]);
      if t.verdict != Going then t
      else
        var f := Feed(t.ds, 0, text[|text| - 1]);
        Talk(f.ds, t.sent + f.sent, f.verdict)
  }

  /** Every dialog in front of number i that is not optional is done. */
  predicate Ready(ds: seq<Dialog>, i: nat)
    requires i <= |ds|
  {
    forall j :: 0 <= j < i ==> ds[j].p.done || Optional in ds[j].flags
  }

  /** How much of the text had been read before dialog i was first shown a character, all of it if never. */
  function Opened(ds: seq<Dialog>, text: seq<byte>, i: nat): (k: nat)
    requires i < |ds|
    ensures k <= |text|
  {
    if text == [] then 0
    else
      var t := text[..|text| - 1];
      if Ready(After(ds, t).ds, i) then Opened(ds, t, i) else |text|
  }

  predicate SameDialogs(a: seq<Dialog>, b: seq<Dialog>) {
    |a| == |b| && forall i :: 0 <= i < |a| ==>
      a[i].wanted == b[i].wanted && a[i].reply == b[i].reply && a[i].flags == b[i].flags
        && (a[i].p.done ==> b[i].p.done)
  }

  predicate Fresh(ds: seq<Dialog>) {
    forall i :: 0 <= i < |ds| ==> ds[i].p == Progress(0, false)
  }

  // ---------------------------------------------------------------- one character

  /** The dialog that ended the conversation with this character. */
  predicate Ender(ds: seq<Dialog>, t: Talk, w: nat, c: byte) {
    && w < |ds| == |t.ds| && Ready(ds, w) && !ds[w].p.done && t.ds[w] == Hear(ds[w], c) && t.ds[w].p.done
    && (if t.verdict == Won then End in ds[w].flags else End !in ds[w].flags && Fail in ds[w].flags)
  }

  /**
   What became of the dialogs from number i on when a character was shown to them: each that was reached and pending
   has heard it, up to number w, where the conversation ended or stopped to wait.
   */
  predicate Fed(ds: seq<Dialog>, i: nat, c: byte, t: Talk, w: nat)
    requires i <= |ds|
  {
    && SameDialogs(ds, t.ds)
    && (forall k :: 0 <= k < i ==> t.ds[k] == ds[k])
    && (forall k :: 0 <= k < |ds| && t.ds[k] != ds[k] ==> Ready(ds, k) && !ds[k].p.done && t.ds[k] == Hear(ds[k], c))
    && (forall k :: i <= k < w && k < |ds| && Ready(ds, k) && !ds[k].p.done ==> t.ds[k] == Hear(ds[k], c))
    && (t.verdict == Going ==> w == |ds|)
    && (t.verdict != Going ==> Ender(ds, t, w, c) && i <= w && forall k :: w < k < |ds| ==> t.ds[k] == ds[k])
  }

  lemma FedPastDone(ds: seq<Dialog>, i: nat, c: byte, t: Talk, w: nat)
    requires i < |ds| && Ready(ds, i) && ds[i].p.done && Fed(ds, i + 1, c, t, w)
    ensures Fed(ds, i, c, t, w)
  {
    hide Hear;
  }

  lemma FedPastOptional(ds: seq<Dialog>, i: nat, c: byte, t: Talk, w: nat)
    requires i < |ds| && Ready(ds, i) && !ds[i].p.done && Optional in ds[i].flags
    requires Fed(ds[i := Hear(ds[i], c)], i + 1, c, t, w)
    ensures Fed(ds, i, c, t, w)
  {
    var now := ds[i := Hear(ds[i], c)];
    forall k | 0 <= k <= |ds|
      ensures Ready(now, k) <==> Ready(ds, k)
    {
      ReadyAlike(ds, i, Hear(ds[i], c), k);
    }
    assert t.ds[i] == now[i];
    hide Ready, Advance;
  }

  lemma ReadyAlike(ds: seq<Dialog>, i: nat, d: Dialog, k: nat)
    requires i < |ds| && Optional in ds[i].flags && d.flags == ds[i].flags && k <= |ds|
    ensures Ready(ds[i := d], k) <==> Ready(ds, k)
  {
    var now := ds[i := d];
    assert forall j :: 0 <= j < k && j != i ==> now[j] == ds[j];
  }

  /** The dialogs end here: the last one has been passed, or one ends the conversation or makes it wait. */
  lemma FedStops(ds: seq<Dialog>, i: nat, c: byte)
    requires i <= |ds| && Ready(ds, i)
    ensures i == |ds| ==> Fed(ds, i, c, Feed(ds, i, c), |ds|)
    ensures i < |ds| && !ds[i].p.done ==>
              var d := Hear(ds[i], c);
              && (d.p.done && (End in d.flags || Fail in d.flags) ==> Fed(ds, i, c, Feed(ds, i, c), i))
              && (!(d.p.done && (End in d.flags || Fail in d.flags)) && Optional !in d.flags ==>
                    Fed(ds, i, c, Feed(ds, i, c), |ds|))
  {
    hide Advance;
  }

  lemma ReadyStays(ds: seq<Dialog>, i: nat, c: byte)
    requires i < |ds| && Ready(ds, i) && (ds[i].p.done || Optional in ds[i].flags)
    ensures Ready(ds, i + 1) && Ready(ds[i := Hear(ds[i], c)], i + 1)
  {
  }

  /** What a character does to each dialog from number i on, those in front being behind it. */
  lemma {:induction false} FeedEach(ds: seq<Dialog>, i: nat, c: byte) returns (w: nat)
    requires i <= |ds| && Ready(ds, i)
    ensures Fed(ds, i, c, Feed(ds, i, c), w)
    decreases |ds| - i
  {
    hide Fed, Ready, Advance;
    w := |ds|;
    FedStops(ds, i, c);
    if i < |ds| {
      var d := Hear(ds[i], c);
      if ds[i].p.done {
        ReadyStays(ds, i, c);
        w := FeedEach(ds, i + 1, c);
        FedPastDone(ds, i, c, Feed(ds, i, c), w);
      } else if d.p.done && (End in d.flags || Fail in d.flags) {
        w := i;
      } else if Optional in d.flags {
        ReadyStays(ds, i, c);
        w := FeedEach(ds[i := d], i + 1, c);
        var t := Feed(ds[i := d], i + 1, c);
        FedPastOptional(ds, i, c, t, w);
        SameOutcome(ds, i, c, t, Feed(ds, i, c), w);
      }
    }
  }

  /** Who replied does not matter to what became of the dialogs. */
  lemma SameOutcome(ds: seq<Dialog>, i: nat, c: byte, t: Talk, u: Talk, w: nat)
    requires i <= |ds| && Fed(ds, i, c, t, w) && u.ds == t.ds && u.verdict == t.verdict
    ensures Fed(ds, i, c, u, w)
  {
  }

  // ---------------------------------------------------------------- whole runs

  lemma {:induction false} DialogsStay(ds: seq<Dialog>, text: seq<byte>)
    ensures SameDialogs(ds, After(ds, text).ds)
  {
    if text != [] {
      var t := After(ds, text[..|text| - 1]);
      DialogsStay(ds, text[..|text| - 1]);
      if t.verdict == Going {
        var w := FeedEach(t.ds, 0, text[|text| - 1]);
      }
    }
  }

  /** Reading on to text without its last character: that character is shown to the dialogs, or to nobody any more. */
  lemma OneMore(ds: seq<Dialog>, text: seq<byte>) returns (w: nat)
    requires text != []
    ensures var was, t := After(ds, text[..|text| - 1]), After(ds, text);
            && SameDialogs(ds, was.ds) && SameDialogs(was.ds, t.ds)
            && (was.verdict != Going ==> t == was)
            && (was.verdict == Going ==>
                  && (forall k :: 0 <= k < |ds| && t.ds[k] != was.ds[k] ==>
                        Ready(was.ds, k) && !was.ds[k].p.done && t.ds[k] == Hear(was.ds[k], text[|text| - 1]))
                  && (forall k :: 0 <= k < w && k < |ds| && Ready(was.ds, k) && !was.ds[k].p.done ==>
                        t.ds[k] == Hear(was.ds[k], text[|text| - 1]))
                  && (t.verdict == Going ==> w == |ds|)
                  && (t.verdict != Going ==> Ender(was.ds, t, w, text[|text| - 1])))
  {
    DialogsStay(ds, text[..|text| - 1]);
    var was := After(ds, text[..|text| - 1]);
    w := 0;
    if was.verdict == Going {
      w := FeedEach(was.ds, 0, text[|text| - 1]);
    } else {
      assert SameDialogs(was.ds, was.ds);
    }
  }

  lemma ReadyPersists(a: seq<Dialog>, b: seq<Dialog>, i: nat)
    requires SameDialogs(a, b) && i <= |a| && Ready(a, i)
    ensures Ready(b, i)
  {
  }

  lemma {:induction false} NotOpenedYet(ds: seq<Dialog>, text: seq<byte>, i: nat)
    requires i < |ds| && !Ready(After(ds, text).ds, i)
    ensures Opened(ds, text, i) == |text|
  {
    if text != [] {
      var t := text[..|text| - 1];
      var w := OneMore(ds, text);
      if Ready(After(ds, t).ds, i) {
        ReadyPersists(After(ds, t).ds, After(ds, text).ds, i);
      }
    }
  }

  lemma WatchOn(e: cstring, text: seq<byte>, o: nat)
    requires text != [] && o < |text|
    ensures var p := Watch(e, text[..|text| - 1][o..]);
            Watch(e, text[o..]) == if p.done then p else Advance(e, p, text[|text| - 1])
  {
    assert text[o..][..|text[o..]| - 1] == text[..|text| - 1][o..];
  }

  /**
   Each dialog on its own: it has watched the text from where it was opened, and nothing else; only in a conversation
   that has been ended may it not have been shown the last characters.
   */
  lemma {:induction false} DialogAlone(ds: seq<Dialog>, text: seq<byte>, i: nat) returns (k: nat)
    requires Fresh(ds) && i < |ds|
    ensures Opened(ds, text, i) <= k <= |text| && After(ds, text).ds[i].wanted == ds[i].wanted
    ensures After(ds, text).ds[i].p == Watch(ds[i].wanted, text[Opened(ds, text, i)..k])
    ensures After(ds, text).verdict == Going ==> k == |text|
  {
    hide Advance;
    k := |text|;
    if text != [] {
      var t, c := text[..|text| - 1], text[|text| - 1];
      var was := After(ds, t);
      var j := DialogAlone(ds, t, i);
      var w := OneMore(ds, text);
      if !Ready(was.ds, i) {
        NotOpenedYet(ds, t, i);
        assert t[|t|..j] == text[|text|..k] == [];
      } else {
        var o := Opened(ds, t, i);
        WatchOn(ds[i].wanted, text, o);
        assert text[o..j] == t[o..j];
        assert t[o..|t|] == t[o..];
        assert text[o..|text|] == text[o..];
        if After(ds, text).ds[i] == was.ds[i] && (was.verdict != Going || i >= w) {
          k := j;
        }
      }
    }
  }

  lemma OccursInMore(text: seq<byte>, k: nat, e: seq<byte>)
    requires k <= |text| && Occurs(text[..k], e)
    ensures Occurs(text, e)
  {
    var j :| |e| <= j <= |text[..k]| && EndsWith(text[..k][..j], e);
    assert text[..k][..j] == text[..j];
  }

  /** A dialog marked done really occurred, in what had not been read before it was opened. */
  lemma DoneMeansSeen(ds: seq<Dialog>, text: seq<byte>, i: nat)
    requires Fresh(ds) && i < |ds| && Characters(text) && After(ds, text).ds[i].p.done
    ensures Occurs(text[Opened(ds, text, i)..], ds[i].wanted)
  {
    hide After, Opened, Occurs, Watch;
    var k := DialogAlone(ds, text, i);
    var o := Opened(ds, text, i);
    WatchIsHonest(ds[i].wanted, text[o..k]);
    assert text[o..][..k - o] == text[o..k];
    OccursInMore(text[o..], k - o, ds[i].wanted);
  }

  /** For a watchable text it is the other way round, too, as long as nothing has ended the conversation. */
  lemma SeenMeansDone(ds: seq<Dialog>, text: seq<byte>, i: nat)
    requires Fresh(ds) && i < |ds| && Characters(text) && After(ds, text).verdict == Going && NeverMisses(ds[i].wanted)
    ensures After(ds, text).ds[i].p.done <==> Occurs(text[Opened(ds, text, i)..], ds[i].wanted)
  {
    hide After, Opened, Occurs, Watch;
    var k := DialogAlone(ds, text, i);
    assert text[Opened(ds, text, i)..k] == text[Opened(ds, text, i)..];
  }

  /** What a dialog needs in front of it when it is opened. */
  lemma {:induction false} OpenedWhenReady(ds: seq<Dialog>, text: seq<byte>, i: nat)
    requires i < |ds|
    ensures Opened(ds, text, i) < |text| ==> Ready(After(ds, text[..Opened(ds, text, i)]).ds, i)
    ensures forall k :: 0 <= k < Opened(ds, text, i) ==> !Ready(After(ds, text[..k]).ds, i)
  {
    if text != [] {
      var t := text[..|text| - 1];
      OpenedWhenReady(ds, t, i);
      var o := Opened(ds, t, i);
      assert forall k :: 0 <= k <= |t| ==> t[..k] == text[..k];
      assert t[..|t|] == t;
      if !Ready(After(ds, t).ds, i) {
        NotOpenedYet(ds, t, i);
      }
    }
  }

  /** A dialog that has just been opened has heard nothing yet. */
  lemma StillFresh(ds: seq<Dialog>, text: seq<byte>, i: nat)
    requires Fresh(ds) && i < |ds|
    ensures var k := Opened(ds, text, i);
            !After(ds, text[..k]).ds[i].p.done && (After(ds, text).ds[i].p.done ==> k < |text|)
  {
    var k := Opened(ds, text, i);
    OpenedWhenReady(ds, text, i);
    if k > 0 {
      assert text[..k][..k - 1] == text[..k - 1];
      assert !Ready(After(ds, text[..k - 1]).ds, i);
    }
    assert Opened(ds, text[..k], i) == k;
    var e := DialogAlone(ds, text[..k], i);
    assert text[..k][k..e] == [];
    var f := DialogAlone(ds, text, i);
    assert k == |text| ==> text[k..f] == [];
  }

  /** Mandatory dialogs are done in the order of the list, on parts of the text that do not overlap. */
  lemma InOrder(ds: seq<Dialog>, text: seq<byte>, j: nat, i: nat) returns (k: nat)
    requires Fresh(ds) && j < i < |ds| && Characters(text) && Optional !in ds[j].flags && After(ds, text).ds[i].p.done
    ensures k <= |text| && Occurs(text[..k], ds[j].wanted) && Occurs(text[k..], ds[i].wanted)
    ensures After(ds, text[..k]).ds[j].p.done && !After(ds, text[..k]).ds[i].p.done
  {
    hide After, Opened, Occurs, EndsWith, Watch;
    k := Opened(ds, text, i);
    DoneMeansSeen(ds, text, i);
    OpenedWhenReady(ds, text, i);
    DialogsStay(ds, text[..k]);
    StillFresh(ds, text, i);
    DoneMeansSeen(ds, text[..k], j);
    assert text[..k][Opened(ds, text[..k], j)..] == text[Opened(ds, text[..k], j)..k];
    OccursBehind(text[..k], Opened(ds, text[..k], j), ds[j].wanted);
  }

  lemma OccursBehind(text: seq<byte>, o: nat, e: seq<byte>)
    requires o <= |text| && Occurs(text[o..], e)
    ensures Occurs(text, e)
  {
    hide EndsWith;
    var j :| |e| <= j <= |text[o..]| && EndsWith(text[o..][..j], e);
    EndsBehind(text, o, j, e);
  }

  lemma EndsBehind(text: seq<byte>, o: nat, j: nat, e: seq<byte>)
    requires |e| <= j && o + j <= |text| && EndsWith(text[o..][..j], e)
    ensures EndsWith(text[..o + j], e)
  {
    var part, whole := text[o..][..j], text[..o + j];
    assert part == text[o..o + j];
    assert part[j - |e|..] == text[o + j - |e|..o + j];
    assert whole[o + j - |e|..] == text[o + j - |e|..o + j];
  }

  // ---------------------------------------------------------------- replies and the result

  predicate Replied(a: Dialog, b: Dialog) { a.reply.Some? && b.p.done && !a.p.done }

  predicate NoRepeats(s: seq<nat>) {
    forall a, b :: 0 <= a < b < |s| ==> s[a] != s[b]
  }

  lemma NoRepeatsJoin(s: seq<nat>, t: seq<nat>)
    requires NoRepeats(s) && NoRepeats(t) && forall k :: k in s ==> k !in t
    ensures NoRepeats(s + t)
  {
    forall a, b | 0 <= a < b < |s + t|
      ensures (s + t)[a] != (s + t)[b]
    {
      assert a < |s| ==> (s + t)[a] in s;
    }
  }

  lemma {:induction false} FeedKeeps(ds: seq<Dialog>, i: nat, c: byte)
    requires i <= |ds|
    ensures forall k :: 0 <= k < i ==> Feed(ds, i, c).ds[k] == ds[k]
    decreases |ds| - i
  {
    hide Advance;
    if i < |ds| {
      FeedKeeps(ds, i + 1, c);
      FeedKeeps(ds[i := Hear(ds[i], c)], i + 1, c);
    }
  }

  /** A character's replies: who sends them, when none comes before dialog i. */
  ghost predicate RepliesOf(t: Talk, ds: seq<Dialog>, i: nat) {
    && |t.ds| == |ds| && NoRepeats(t.sent) && (forall k :: k in t.sent ==> k >= i)
    && (forall k: nat :: k in t.sent <==> k < |ds| && Replied(ds[k], t.ds[k]))
  }

  /** One more dialog in front, which has heard the character too. */
  lemma RepliesInFront(ds: seq<Dialog>, i: nat, d: Dialog, sent: seq<nat>, t: Talk)
    requires i < |ds| && RepliesOf(t, ds[i := d], i + 1) && t.ds[i] == d && d.reply == ds[i].reply
    requires sent == if Replied(ds[i], d) then [i] else []
    ensures RepliesOf(Talk(t.ds, sent + t.sent, t.verdict), ds, i)
  {
    NoRepeatsJoin(sent, t.sent);
    var now := ds[i := d];
    assert forall k :: 0 <= k < |ds| && k != i ==> now[k] == ds[k];
  }

  lemma {:induction false} FeedReplies(ds: seq<Dialog>, i: nat, c: byte)
    requires i <= |ds|
    ensures RepliesOf(Feed(ds, i, c), ds, i)
    decreases |ds| - i
  {
    hide Advance, RepliesOf;
    if i == |ds| {
      NobodyReplies(ds, i, Going);
    } else if ds[i].p.done {
      FeedReplies(ds, i + 1, c);
      RepliesFurtherOn(Feed(ds, i + 1, c), ds, i);
    } else {
      var d := Hear(ds[i], c);
      var now := ds[i := d];
      var t := if d.p.done && End in d.flags then Talk(now, [], Won)
               else if d.p.done && Fail in d.flags then Talk(now, [], Lost)
               else if Optional !in d.flags then Talk(now, [], Going) else Feed(now, i + 1, c);
      NobodyReplies(now, i + 1, t.verdict);
      FeedReplies(now, i + 1, c);
      FeedKeeps(now, i + 1, c);
      RepliesInFront(ds, i, d, if Replied(ds[i], d) then [i] else [], t);
      assert Feed(ds, i, c) == Talk(t.ds, (if Replied(ds[i], d) then [i] else []) + t.sent, t.verdict);
    }
  }

  lemma NobodyReplies(ds: seq<Dialog>, i: nat, v: Verdict)
    ensures RepliesOf(Talk(ds, [], v), ds, i)
  {
  }

  lemma RepliesFurtherOn(t: Talk, ds: seq<Dialog>, i: nat)
    requires RepliesOf(t, ds, i + 1)
    ensures RepliesOf(t, ds, i)
  {
  }

  /** Exactly the dialogs that were done in this conversation have sent their replies, each of them once. */
  lemma {:induction false} RepliesOnce(ds: seq<Dialog>, text: seq<byte>)
    ensures var t := After(ds, text);
            && SameDialogs(ds, t.ds) && NoRepeats(t.sent)
            && (forall k: nat :: k in t.sent <==> k < |ds| && Replied(ds[k], t.ds[k]))
  {
    if text != [] {
      var t := After(ds, text[..|text| - 1]);
      RepliesOnce(ds, text[..|text| - 1]);
      DialogsStay(ds, text);
      var w := OneMore(ds, text);
      if t.verdict == Going {
        FeedReplies(t.ds, 0, text[|text| - 1]);
        NoRepeatsJoin(t.sent, Feed(t.ds, 0, text[|text| - 1]).sent);
      }
    }
  }

  /** A conversation was ended by a dialog for ending it, and by the last character that was needed. */
  lemma {:induction false} EndedByDialog(ds: seq<Dialog>, text: seq<byte>) returns (w: nat)
    requires After(ds, text).verdict != Going
    ensures w < |ds| && After(ds, text).ds[w].p.done && !ds[w].p.done
    ensures After(ds, text).verdict == Won ==> End in ds[w].flags
    ensures After(ds, text).verdict == Lost ==> Fail in ds[w].flags && End !in ds[w].flags
  {
    var was := After(ds, text[..|text| - 1]);
    w := OneMore(ds, text);
    if was.verdict != Going {
      w := EndedByDialog(ds, text[..|text| - 1]);
    }
  }

  /** ExpectDialogsDone */
  predicate AllDone(ds: seq<Dialog>) { Ready(ds, |ds|) }

  /** The result, given how reading stopped. */
  predicate Succeeds(t: Talk, eof: bool) {
    t.verdict == Won || (t.verdict == Going && eof && AllDone(t.ds))
  }

  /**
   Success is an end that a dialog asked for, or the end of the stream with every mandatory dialog done. A silence is
   no success, whatever has been said before it.
   */
  lemma SuccessIs(t: Talk, eof: bool)
    ensures Succeeds(t, eof) <==>
            || t.verdict == Won
            || (t.verdict == Going && eof
                && forall i :: 0 <= i < |t.ds| ==> t.ds[i].p.done || Optional in t.ds[i].flags)
    ensures t.verdict == Lost ==> !Succeeds(t, eof)
    ensures t.verdict == Going ==> !Succeeds(t, false)
  {
  }

  // ---------------------------------------------------------------- reading the stream

  const EOF: int := -1
  const STREAM_NODATA: int := -2

  /** What reading a character returns: one of 0 to 255, or a negative code. */
  type code = c: int | c < 256 witness 0

  datatype Hearing = Hearing(text: seq<byte>, eof: bool)

  /**
   The characters read until the stream ends or, with a timeout, falls silent. Zeros and other codes are passed over.
   */
  function Heard(codes: seq<code>, timed: bool): Hearing {
    if codes == [] || codes[0] == EOF then Hearing([], true)
    else if codes[0] == STREAM_NODATA && timed then Hearing([], false)
    else
      var h := Heard(codes[1..], timed);
      if codes[0] > 0 then Hearing([codes[0]] + h.text, h.eof) else h
  }

  lemma {:induction false} HeardInFront(front: seq<code>, rest: seq<code>, timed: bool)
    requires forall i :: 0 <= i < |front| ==> 0 < front[i]
    ensures Heard(front + rest, timed) == Hearing(front + Heard(rest, timed).text, Heard(rest, timed).eof)
  {
    if front == [] {
      assert front + rest == rest && front + Heard(rest, timed).text == Heard(rest, timed).text;
    } else {
      HeardInFront(front[1..], rest, timed);
      assert (front + rest)[1..] == front[1..] + rest;
      assert [front[0]] + (front[1..] + Heard(rest, timed).text) == front + Heard(rest, timed).text;
    }
  }

  lemma StopsHearing(rest: seq<code>, timed: bool)
    ensures Heard([], timed) == Heard([-1] + rest, timed) == Hearing([], true)
    ensures Heard([-2] + rest, true) == Hearing([], false)
    ensures Heard([-2] + rest, false) == Heard([0] + rest, false) == Heard(rest, false)
    ensures Heard([0] + rest, timed) == Heard(rest, timed)
  {
    assert ([-2] + rest)[1..] == rest && ([0] + rest)[1..] == rest;
  }

  /** What is heard: characters up to the end of the stream, or, with a timeout, up to a silence, which is no end. */
  lemma HeardUpTo(front: seq<code>, rest: seq<code>, timed: bool)
    requires forall i :: 0 <= i < |front| ==> 0 < front[i]
    ensures Heard(front, timed) == Heard(front + ([-1] + rest), timed) == Hearing(front, true)
    ensures Heard(front + ([-2] + rest), true) == Hearing(front, false)
    ensures Heard(front + ([-2] + rest), false) == Heard(front + rest, false)
    ensures Heard(front + ([0] + rest), timed) == Heard(front + rest, timed)
  {
    hide Heard;
    HeardInFront(front, [], timed);
    HeardInFront(front, [-1] + rest, timed);
    HeardInFront(front, [-2] + rest, timed);
    HeardInFront(front, [-2] + rest, true);
    HeardInFront(front, [-2] + rest, false);
    HeardInFront(front, [0] + rest, timed);
    HeardInFront(front, rest, timed);
    HeardInFront(front, rest, false);
    StopsHearing(rest, timed);
    assert front + [] == front;
    var nothing: seq<byte> := [];
    assert front + nothing == front;
  }

  /** A stream as far as it is used here: what reading it will return, and the lines written to it. */
  class Stream {
    var Input: seq<code>
    var Output: seq<string>
    var Timeout: int

    constructor (input: seq<code>, timeout: int)
      ensures Input == input && Output == [] && Timeout == timeout
    {
      Input, Output, Timeout := input, [], timeout;
    }

    /** STREAMReadChar */
    method ReadChar() returns (c: code)
      modifies this`Input
      ensures c == (if old(Input) == [] then EOF else old(Input)[0])
      ensures Input == if old(Input) == [] then [] else old(Input)[1..]
    {
      if Input == [] {
        return EOF;
      }
      c, Input := Input[0], Input[1..];
    }

    method WriteLine(line: string)
      modifies this`Output
      ensures Output == old(Output) + [line]
    {
      Output := Output + [line];
    }
  }

  class ExpectDialog {
    const Wanted: cstring
    const Reply: Option<string>
    var Match: nat
    var Flags: set<DialogFlag>

    constructor (wanted: cstring, reply: Option<string>, flags: set<DialogFlag>)
      ensures Value() == Dialog(wanted, reply, flags - {Done}, Progress(0, Done in flags))
    {
      Wanted, Reply, Match, Flags := wanted, reply, 0, flags;
    }

    function Value(): Dialog
      reads this
    {
      Dialog(Wanted, Reply, Flags - {Done}, Progress(Match, Done in Flags))
    }

    /** The counter against one character; true when that completes the text. */
    method HearChar(c: byte) returns (completed: bool)
      requires Done !in Flags
      modifies this
      ensures Value() == Hear(old(Value()), c) && completed == (Done in Flags)
    {
      completed := false;
      if At(Wanted, Match) != c { Match := 0; }
      if At(Wanted, Match) == c {
        Match := Match + 1;
        if At(Wanted, Match) == 0 {
          Match := 0;
          Flags := Flags + {Done};
          completed := true;
        }
      }
      assert Flags - {Done} == old(Flags) - {Done};
    }
  }

  predicate Apart(dialogs: seq<ExpectDialog>) {
    forall i, j :: 0 <= i < j < |dialogs| ==> dialogs[i] != dialogs[j]
  }

  ghost predicate Shows(dialogs: seq<ExpectDialog>, ds: seq<Dialog>)
    reads dialogs
  {
    |dialogs| == |ds| && forall i :: 0 <= i < |ds| ==> dialogs[i].Value() == ds[i]
  }

  function ReplyOf(ds: seq<Dialog>, k: nat): string {
    if k < |ds| && ds[k].reply.Some? then ds[k].reply.value else ""
  }

  /** The lines that the dialogs numbered in sent reply with. */
  function Replies(ds: seq<Dialog>, sent: seq<nat>): seq<string> {
    if sent == [] then [] else [ReplyOf(ds, sent[0])] + Replies(ds, sent[1..])
  }

  lemma {:induction false} RepliesJoin(ds: seq<Dialog>, s: seq<nat>, t: seq<nat>)
    ensures Replies(ds, s + t) == Replies(ds, s) + Replies(ds, t)
  {
    if s == [] {
      assert s + t == t;
    } else {
      assert (s + t)[1..] == s[1..] + t;
      RepliesJoin(ds, s[1..], t);
    }
  }

  lemma {:induction false} SameReplies(a: seq<Dialog>, b: seq<Dialog>, sent: seq<nat>)
    requires SameDialogs(a, b)
    ensures Replies(a, sent) == Replies(b, sent)
  {
    if sent != [] {
      SameReplies(a, b, sent[1..]);
    }
  }

  /** A pending dialog hears a character, and replies if that was the last one it wanted. */
  method Attend(dialog: ExpectDialog, c: byte, s: Stream) returns (completed: bool)
    requires Done !in dialog.Flags
    modifies dialog, s`Output
    ensures dialog.Value() == Hear(old(dialog.Value()), c) && completed == (Done in dialog.Flags)
    ensures s.Output == old(s.Output) + if completed && dialog.Reply.Some? then [dialog.Reply.value] else []
  {
    completed := dialog.HearChar(c);
    if completed && dialog.Reply.Some? {
      s.WriteLine(dialog.Reply.value);
    }
  }

  /** The replies of dialog i when it has heard the character, and the number of the dialog. */
  function SentBy(ds: seq<Dialog>, i: nat, d: Dialog): seq<nat> {
    if d.p.done && d.reply.Some? then [i] else []
  }

  lemma RepliesOfOne(ds: seq<Dialog>, now: seq<Dialog>, sent: seq<nat>, i: nat, d: Dialog)
    requires SameDialogs(ds, now) && i < |ds| && d.reply == now[i].reply
    ensures Replies(ds, sent + SentBy(now, i, d)) ==
            Replies(ds, sent) + if d.p.done && d.reply.Some? then [d.reply.value] else []
  {
    hide Replies;
    RepliesJoin(ds, sent, SentBy(now, i, d));
    RepliesOfList(ds, i);
  }

  lemma RepliesOfList(ds: seq<Dialog>, i: nat)
    ensures Replies(ds, []) == [] && Replies(ds, [i]) == [ReplyOf(ds, i)]
  {
    assert [i][1..] == [];
  }

  /** How feeding goes on from dialog i. */
  lemma FeedStep(ds: seq<Dialog>, i: nat, c: byte)
    requires i < |ds|
    ensures ds[i].p.done ==> Feed(ds, i, c) == Feed(ds, i + 1, c)
    ensures !ds[i].p.done ==>
              var d := Hear(ds[i], c);
              var now, sent := ds[i := d], SentBy(ds, i, d);
              if d.p.done && End in d.flags then Feed(ds, i, c) == Talk(now, sent, Won)
              else if d.p.done && Fail in d.flags then Feed(ds, i, c) == Talk(now, sent, Lost)
              else if Optional !in d.flags then Feed(ds, i, c) == Talk(now, sent, Going)
              else
                var t := Feed(now, i + 1, c);
                Feed(ds, i, c) == Talk(t.ds, sent + t.sent, t.verdict)
  {
    hide Advance;
  }

  lemma HearKeeps(ds: seq<Dialog>, now: seq<Dialog>, i: nat, c: byte)
    requires SameDialogs(ds, now) && i < |now| && !now[i].p.done
    ensures SameDialogs(ds, now[i := Hear(now[i], c)])
  {
  }

  ghost predicate FedSoFar(ds: seq<Dialog>, now: seq<Dialog>, sent: seq<nat>, i: nat, c: byte) {
    && i <= |now| && SameDialogs(ds, now)
    && Feed(ds, 0, c) == Talk(Feed(now, i, c).ds, sent + Feed(now, i, c).sent, Feed(now, i, c).verdict)
  }

  /** One step of the loop over the dialogs, as Feed sees it. */
  lemma FedFurther(ds: seq<Dialog>, now: seq<Dialog>, sent: seq<nat>, i: nat, c: byte)
    requires FedSoFar(ds, now, sent, i, c) && i < |now|
    ensures now[i].p.done ==> FedSoFar(ds, now, sent, i + 1, c)
    ensures !now[i].p.done ==>
              var d := Hear(now[i], c);
              var next, all := now[i := d], sent + SentBy(now, i, d);
              && Replies(ds, all) == Replies(ds, sent) + (if d.p.done && d.reply.Some? then [d.reply.value] else [])
              && (if d.p.done && End in d.flags then Feed(ds, 0, c) == Talk(next, all, Won)
                  else if d.p.done && Fail in d.flags then Feed(ds, 0, c) == Talk(next, all, Lost)
                  else if Optional !in d.flags then Feed(ds, 0, c) == Talk(next, all, Going)
                  else FedSoFar(ds, next, all, i + 1, c))
  {
    hide Feed, Advance, Replies;
    FeedStep(now, i, c);
    if !now[i].p.done {
      var d := Hear(now[i], c);
      HearKeeps(ds, now, i, c);
      RepliesOfOne(ds, now, sent, i, d);
      var t := Feed(now[i := d], i + 1, c);
      assert sent + SentBy(now, i, d) + t.sent == sent + (SentBy(now, i, d) + t.sent);
    }
  }

  lemma NothingFedYet(ds: seq<Dialog>, c: byte)
    ensures FedSoFar(ds, ds, [], 0, c) && Replies(ds, []) == []
  {
    assert [] + Feed(ds, 0, c).sent == Feed(ds, 0, c).sent;
  }

  lemma AllFed(ds: seq<Dialog>, now: seq<Dialog>, sent: seq<nat>, c: byte)
    requires FedSoFar(ds, now, sent, |now|, c)
    ensures Feed(ds, 0, c) == Talk(now, sent, Going)
  {
    assert sent + [] == sent;
  }

  /** The loop over the dialogs for one character. */
  method ShowChar(dialogs: seq<ExpectDialog>, c: byte, s: Stream, ghost ds: seq<Dialog>) returns (verdict: Verdict)
    requires Apart(dialogs) && Shows(dialogs, ds)
    modifies dialogs, s`Output
    ensures var t := Feed(ds, 0, c);
            Shows(dialogs, t.ds) && verdict == t.verdict && s.Output == old(s.Output) + Replies(ds, t.sent)
  {
    hide Feed, Advance, Replies, FedSoFar;
    NothingFedYet(ds, c);
    ghost var now, sent: seq<nat> := ds, [];
    var i := 0;
    while i < |dialogs|
      invariant 0 <= i <= |dialogs| == |now| && Shows(dialogs, now)
      invariant FedSoFar(ds, now, sent, i, c)
      invariant s.Output == old(s.Output) + Replies(ds, sent)
    {
      var dialog := dialogs[i];
      FedFurther(ds, now, sent, i, c);
      if Done !in dialog.Flags {
        var completed := Attend(dialog, c, s);
        sent := sent + SentBy(now, i, Hear(now[i], c));
        now := now[i := Hear(now[i], c)];
        if completed && End in dialog.Flags {
          return Won;
        }
        if completed && Fail in dialog.Flags {
          return Lost;
        }
        if Optional !in dialog.Flags {
          return Going;
        }
      }
      i := i + 1;
    }
    AllFed(ds, now, sent, c);
    verdict := Going;
  }

  /** ExpectDialogsDone */
  method DialogsDone(dialogs: seq<ExpectDialog>, ghost ds: seq<Dialog>) returns (r: bool)
    requires Shows(dialogs, ds)
    ensures Shows(dialogs, ds) && r == AllDone(ds)
  {
    var i := 0;
    while i < |dialogs|
      invariant 0 <= i <= |dialogs| && Ready(ds, i) && Shows(dialogs, ds)
    {
      if !(Done in dialogs[i].Flags || Optional in dialogs[i].Flags) {
        return false;
      }
      i := i + 1;
    }
    r := true;
  }

  /** What is heard of a read and of what is left to read. */
  lemma HeardNext(c: code, rest: seq<code>, timed: bool)
    ensures c == EOF ==> Heard([c] + rest, timed) == Hearing([], true)
    ensures c == STREAM_NODATA && timed ==> Heard([c] + rest, timed) == Hearing([], false)
    ensures c != EOF && !(c == STREAM_NODATA && timed) ==>
              var h := Heard(rest, timed);
              Heard([c] + rest, timed) == if c > 0 then Hearing([c] + h.text, h.eof) else h
  {
    assert ([c] + rest)[1..] == rest;
  }

  lemma AfterNext(ds: seq<Dialog>, text: seq<byte>, c: byte)
    requires After(ds, text).verdict == Going
    ensures var t, f := After(ds, text), Feed(After(ds, text).ds, 0, c);
            After(ds, text + [c]) == Talk(f.ds, t.sent + f.sent, f.verdict)
  {
    assert (text + [c])[..|text + [c]| - 1] == text;
  }

  /** Nothing that could still be read changes a conversation that has been ended. */
  lemma {:induction false} AfterSticks(ds: seq<Dialog>, text: seq<byte>, more: seq<byte>)
    requires After(ds, text).verdict != Going
    ensures After(ds, text + more) == After(ds, text)
  {
    if more == [] {
      assert text + more == text;
    } else {
      AfterSticks(ds, text, more[..|more| - 1]);
      assert (text + more)[..|text + more| - 1] == text + more[..|more| - 1];
    }
  }

  /** Showing a character to all the dialogs, as the conversation sees it. */
  method Converse(s: Stream, dialogs: seq<ExpectDialog>, c: byte, ghost ds: seq<Dialog>, ghost text: seq<byte>)
    returns (verdict: Verdict)
    requires Apart(dialogs) && Shows(dialogs, After(ds, text).ds) && After(ds, text).verdict == Going
    modifies dialogs, s`Output
    ensures var was, t := After(ds, text), After(ds, text + [c]);
            && Shows(dialogs, t.ds) && verdict == t.verdict
            && (forall before :: old(s.Output) == before + Replies(ds, was.sent) ==>
                  s.Output == before + Replies(ds, t.sent))
  {
    hide After, Feed, Replies;
    ghost var was := After(ds, text);
    AfterNext(ds, text, c);
    DialogsStay(ds, text);
    ghost var sent := Feed(was.ds, 0, c).sent;
    SameReplies(ds, was.ds, sent);
    RepliesJoin(ds, was.sent, sent);
    verdict := ShowChar(dialogs, c, s, was.ds);
  }

  /** What is left unread: all that comes behind the code, or the character, that ended the conversation. */
  function Unread(ds: seq<Dialog>, text: seq<byte>, codes: seq<code>, timed: bool): seq<code>
    decreases |codes|
  {
    if codes == [] then []
    else if codes[0] == EOF || (codes[0] == STREAM_NODATA && timed) then codes[1..]
    else if codes[0] <= 0 then Unread(ds, text, codes[1..], timed)
    else
      var next := text + [codes[0]];
      if After(ds, next).verdict != Going then codes[1..] else Unread(ds, next, codes[1..], timed)
  }

  lemma UnreadNext(ds: seq<Dialog>, text: seq<byte>, c: code, rest: seq<code>, timed: bool)
    ensures c == EOF || (c == STREAM_NODATA && timed) ==> Unread(ds, text, [c] + rest, timed) == rest
    ensures c != EOF && !(c == STREAM_NODATA && timed) && c <= 0 ==>
              Unread(ds, text, [c] + rest, timed) == Unread(ds, text, rest, timed)
    ensures c > 0 ==> Unread(ds, text, [c] + rest, timed) ==
                      if After(ds, text + [c]).verdict != Going then rest else Unread(ds, text + [c], rest, timed)
  {
    hide After;
    assert ([c] + rest)[1..] == rest;
  }

  /** At the end, reading finds the end and leaves nothing. */
  lemma UnreadAtEnd(ds: seq<Dialog>, text: seq<byte>, codes: seq<code>, timed: bool)
    ensures codes == [] ==> Unread(ds, text, codes, timed) == Unread(ds, text, [EOF] + codes, timed)
  {
    hide After;
    assert ([EOF] + codes)[1..] == codes;
  }

  /** What is given to a conversation: its dialogs, what there is to read, and whether reading may time out. */
  datatype Talking = Talking(ds: seq<Dialog>, input: seq<code>, timed: bool)

  /** Under way: text has been heard, nothing has ended the conversation, and rest is still to be read. */
  predicate UnderWay(k: Talking, text: seq<byte>, rest: seq<code>) {
    && After(k.ds, text).verdict == Going
    && Heard(k.input, k.timed) == Hearing(text + Heard(rest, k.timed).text, Heard(rest, k.timed).eof)
    && Unread(k.ds, text, rest, k.timed) == Unread(k.ds, [], k.input, k.timed)
  }

  lemma NothingHeard(k: Talking)
    ensures UnderWay(k, [], k.input) && After(k.ds, []) == Talk(k.ds, [], Going) && Replies(k.ds, []) == []
  {
    assert [] + Heard(k.input, k.timed).text == Heard(k.input, k.timed).text;
  }

  /** Reading at the end finds the end. */
  lemma ReadOne(k: Talking, text: seq<byte>, rest: seq<code>)
    requires UnderWay(k, text, rest)
    ensures rest == [] ==> UnderWay(k, text, [EOF] + rest)
    ensures rest != [] ==> [rest[0]] + rest[1..] == rest
  {
    hide After;
    UnreadAtEnd(k.ds, text, rest, k.timed);
  }

  /** The end of input, or a time-out. */
  lemma Ended(k: Talking, text: seq<byte>, c: code, rest: seq<code>)
    requires UnderWay(k, text, [c] + rest) && (c == EOF || (c == STREAM_NODATA && k.timed))
    ensures Heard(k.input, k.timed) == Hearing(text, c == EOF) && Unread(k.ds, [], k.input, k.timed) == rest
  {
    hide After, Heard, Unread;
    HeardNext(c, rest, k.timed);
    UnreadNext(k.ds, text, c, rest, k.timed);
    assert text + [] == text;
  }

  /** A character, or a code that is none. */
  lemma HeardOne(k: Talking, text: seq<byte>, c: code, rest: seq<code>)
    requires UnderWay(k, text, [c] + rest) && c != EOF && !(c == STREAM_NODATA && k.timed)
    ensures c <= 0 ==> UnderWay(k, text, rest)
    ensures c > 0 && After(k.ds, text + [c]).verdict == Going ==> UnderWay(k, text + [c], rest)
    ensures c > 0 && After(k.ds, text + [c]).verdict != Going ==>
              After(k.ds, Heard(k.input, k.timed).text) == After(k.ds, text + [c])
                && Unread(k.ds, [], k.input, k.timed) == rest
  {
    hide After, Heard, Unread;
    HeardNext(c, rest, k.timed);
    UnreadNext(k.ds, text, c, rest, k.timed);
    if c > 0 {
      var more := Heard(rest, k.timed).text;
      assert text + ([c] + more) == text + [c] + more;
      if After(k.ds, text + [c]).verdict != Going {
        AfterSticks(k.ds, text + [c], more);
      }
    }
  }

  /** STREAMExpectDialog */
  method STREAMExpectDialog(s: Stream, dialogs: seq<ExpectDialog>, timeout: int, ghost ds: seq<Dialog>)
    returns (ok: bool)
    requires Apart(dialogs) && Shows(dialogs, ds)
    modifies dialogs, s
    ensures var h := Heard(old(s.Input), timeout > 0);
            var t := After(ds, h.text);
            && Shows(dialogs, t.ds) && s.Output == old(s.Output) + Replies(ds, t.sent)
            && ok == Succeeds(t, h.eof) && s.Timeout == old(s.Timeout)
    ensures s.Input == Unread(ds, [], old(s.Input), timeout > 0)
  {
    hide After, Replies, Heard, Ready, Unread, UnderWay, Apart;
    ghost var k := Talking(ds, s.Input, timeout > 0);
    var savedTimeout := s.Timeout;
    if timeout > 0 { s.Timeout := timeout; }
    NothingHeard(k);
    ReadOne(k, [], s.Input);
    ghost var text: seq<byte> := [];
    var c := s.ReadChar();
    while c != EOF
      invariant Shows(dialogs, After(ds, text).ds) && s.Output == old(s.Output) + Replies(ds, After(ds, text).sent)
      invariant UnderWay(k, text, [c] + s.Input)
      decreases |s.Input| + if c == EOF then 0 else 1
    {
      if c == STREAM_NODATA && timeout > 0 {
        break;
      }
      HeardOne(k, text, c, s.Input);
      if c > 0 {
        StillGoing(k, text, [c] + s.Input);
        var verdict := Converse(s, dialogs, c, ds, text);
        text := text + [c];
        if verdict != Going {
          s.Timeout := savedTimeout;
          return verdict == Won;
        }
      }
      ReadOne(k, text, s.Input);
      c := s.ReadChar();
    }
    Ended(k, text, c, s.Input);
    StillGoing(k, text, [c] + s.Input);
    s.Timeout := savedTimeout;
    var done := DialogsDone(dialogs, After(ds, text).ds);
    ok := c == EOF && done;
  }

  lemma StillGoing(k: Talking, text: seq<byte>, rest: seq<code>)
    requires UnderWay(k, text, rest)
    ensures After(k.ds, text).verdict == Going
  {
  }
}
