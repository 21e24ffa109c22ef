/**
 The decoder for chunked HTTP bodies: input arrives in fragments of any size, output leaves through
 a buffer of any size, and between calls a buffer and a pending chunk size hold what is not yet delivered.
 */
module HttpChunked {
  import opened Bytes
  import opened Wrappers

  const CR: byte := 13
  const LF: byte := 10
  const SIZE_RANGE: int := 0x1_0000_0000_0000_0000
  const LONG_MAX: int := 0x7FFF_FFFF_FFFF_FFFF

  // ---------------------------------------------------------------- numbers in a header

  predicate IsHex(b: byte) {
    48 <= b <= 57 || 65 <= b <= 70 || 97 <= b <= 102
  }

  function HexDigit(b: byte): nat
    requires IsHex(b)
  {
    if b <= 57 then b - 48 else if b <= 70 then b - 55 else b - 87
  }

  /** Value of the hexadecimal digits that s starts with, continuing from v. */
  function HexRun(s: seq<byte>, v: nat): nat {
    if s != [] && IsHex(s[0]) then HexRun(s[1..], 16 * v + HexDigit(s[0])) else v
  }

  function SkipBlanks(s: seq<byte>): seq<byte> {
    if s != [] && (s[0] == 32 || 9 <= s[0] <= 13) then SkipBlanks(s[1..]) else s
  }

  /** The digits behind a sign, with or without 0x in front. */
  function Magnitude(q: seq<byte>): nat {
    var prefixed := |q| > 2 && q[0] == 48 && (q[1] == 120 || q[1] == 88) && IsHex(q[2]);
    HexRun(if prefixed then q[2..] else q, 0)
  }

  /** strtol(s, NULL, 16), then stored as a size_t. */
  function HexSize(s: seq<byte>): nat {
    var p := SkipBlanks(s);
    var neg := p != [] && p[0] == 45;
    var q := if p != [] && (p[0] == 45 || p[0] == 43) then p[1..] else p;
    var m := Magnitude(q);
    var v := if neg then (if m > LONG_MAX + 1 then -LONG_MAX - 1 else 0 - m)
             else (if m > LONG_MAX then LONG_MAX else m);
    v % SIZE_RANGE
  }

  // ---------------------------------------------------------------- one call

  datatype State = State(buf: seq<byte>, chunkSize: nat)

  /** What a call returns: STREAM_CLOSED, or the bytes placed in the output buffer. */
  datatype Outcome = Closed | Out(bytes: seq<byte>)

  datatype Step = Step(state: State, outcome: Outcome)

  /** Where a header starts: past one '\r' and one '\n'. */
  function HeaderStart(b: seq<byte>): (v: nat)
    ensures v <= |b|
  {
    var v := if |b| > 0 && b[0] == CR then 1 else 0;
    if v < |b| && b[v] == LF then v + 1 else v
  }

  /** Index of the first c at or behind from, or the length. */
  function Find(b: seq<byte>, from: nat, c: byte): (i: nat)
    requires from <= |b|
    ensures from <= i <= |b|
    ensures i < |b| ==> b[i] == c
    ensures forall k :: from <= k < i ==> b[k] != c
    decreases |b| - from
  {
    if from == |b| || b[from] == c then from else Find(b, from + 1, c)
  }

  /** The end of the header line; without input, a '\r' or the end of the buffer will do. */
  function HeaderEnd(b: seq<byte>, last: bool): (i: nat)
    ensures HeaderStart(b) <= i <= |b|
  {
    var lf := Find(b, HeaderStart(b), LF);
    if lf < |b| || !last then lf else Find(b, HeaderStart(b), CR)
  }

  /** StrTrunc: a NUL at position k, unless the string ends before it. */
  function Truncate(b: seq<byte>, k: nat): seq<byte> {
    if k < |b| && 0 !in b[..k] then b[k := 0] else b
  }

  function Min(a: nat, b: nat): nat { if a < b then a else b }

  /** Deliver from a buffer that holds the whole of the pending chunk. */
  function Deliver(st: State, outLen: nat): Step {
    if |st.buf| >= st.chunkSize then
      var n := Min(st.chunkSize, outLen);
      Step(State(st.buf[n..], st.chunkSize - n), Out(st.buf[..n]))
    else Step(st, Out([]))
  }

  /** Read the header in front of a buffer, then deliver. */
  function ReadHeader(b: seq<byte>, last: bool, outLen: nat): Step
    requires last ==> HeaderDefined(b)
  {
    var end := HeaderEnd(b, last);
    assert end == |b| ==> b[HeaderStart(b)..end] == b[HeaderStart(b)..];
    if end == |b| && !last then Step(State(b, 0), Out([]))
    else
      var size := HexSize(b[HeaderStart(b)..end]);
      if size == 0 then Step(State(Truncate(b, end), 0), Closed)
      else Deliver(State(b[end + 1..], size), outLen)
  }

  /** A header that nothing ends and that names a size makes the source move a negative number of bytes. */
  predicate HeaderDefined(b: seq<byte>) {
    HeaderEnd(b, true) < |b| || HexSize(b[HeaderStart(b)..]) == 0
  }

  predicate Defined(st: State, input: seq<byte>) {
    st.chunkSize == 0 && input == [] && st.buf != [] ==> HeaderDefined(st.buf)
  }

  /** HTTPChunkedRead on the state it keeps, an input fragment and the room for output. */
  function ReadStep(st: State, input: seq<byte>, outLen: nat): Step
    requires Defined(st, input)
  {
    var b := st.buf + input;
    if st.chunkSize > 0 then Deliver(State(b, st.chunkSize), outLen)
    else if b == [] then Step(st, Closed)
    else
      assert input == [] ==> b == st.buf;
      ReadHeader(b, input == [], outLen)
  }

  lemma OutputFits(st: State, input: seq<byte>, outLen: nat)
    requires Defined(st, input)
    ensures ReadStep(st, input, outLen).outcome.Out? ==> |ReadStep(st, input, outLen).outcome.bytes| <= outLen
  {
  }

  // ---------------------------------------------------------------- the decoder object

  /** THTTPChunk: a buffer of which BuffLen bytes are in use, and what is pending of the current chunk. */
  class HTTPChunk {
    var Buffer: array<byte>
    var BuffLen: nat
    var ChunkSize: nat

    ghost predicate Valid()
      reads this, Buffer
    {
      BuffLen <= Buffer.Length
    }

    ghost function Value(): State
      requires Valid()
      reads this, Buffer
    {
      State(Buffer[..BuffLen], ChunkSize)
    }

    constructor ()
      ensures Valid() && Value() == State([], 0) && fresh(Buffer)
    {
      Buffer := new byte[0];
      BuffLen, ChunkSize := 0, 0;
    }

    /** SetStrLen and memcpy: a buffer with room for the fragment, which is copied behind what is there. */
    method Append(input: seq<byte>)
      requires Valid()
      modifies this, Buffer
      ensures Valid() && (Buffer == old(Buffer) || fresh(Buffer))
      ensures Value() == State(old(Value()).buf + input, old(ChunkSize))
    {
      var len := BuffLen + |input|;
      var grown := new byte[len + 18];
      forall i | 0 <= i < BuffLen {
        grown[i] := Buffer[i];
      }
      forall i | 0 <= i < |input| {
        grown[BuffLen + i] := input[i];
      }
      assert grown[..len] == Buffer[..BuffLen] + input;
      Buffer, BuffLen := grown, len;
    }

    /** memmove to the front of count bytes from position from on, of which keep stay in use. */
    method MoveDown(from: nat, count: nat, keep: nat)
      requires Valid() && from + count <= Buffer.Length && keep <= count && from + keep <= BuffLen
      modifies this`BuffLen, Buffer
      ensures Valid() && BuffLen == keep
      ensures Buffer[..BuffLen] == old(Buffer[from..from + keep])
    {
      forall i | 0 <= i < count {
        Buffer[i] := Buffer[from + i];
      }
      BuffLen := keep;
    }

    method FindFrom(from: nat, c: byte) returns (i: nat)
      requires Valid() && from <= BuffLen
      ensures i == Find(Buffer[..BuffLen], from, c)
    {
      i := from;
      while i < BuffLen && Buffer[i] != c
        invariant from <= i <= BuffLen
        invariant Find(Buffer[..BuffLen], i, c) == Find(Buffer[..BuffLen], from, c)
      {
        i := i + 1;
      }
    }

    /** Where the header line starts and where it ends. */
    method HeaderBounds(last: bool) returns (v: nat, end: nat)
      requires Valid() && BuffLen > 0
      ensures v == HeaderStart(Value().buf) && end == HeaderEnd(Value().buf, last)
    {
      v := if Buffer[0] == CR then 1 else 0;
      if v < BuffLen && Buffer[v] == LF { v := v + 1; }
      end := FindFrom(v, LF);
      if end == BuffLen && last { end := FindFrom(v, CR); }
    }

    method Terminate(end: nat)
      requires Valid() && end <= BuffLen
      modifies Buffer
      ensures Valid() && Value() == old(State(Truncate(Value().buf, end), ChunkSize))
    {
      assert Buffer[..BuffLen][..end] == Buffer[..end];
      if end < BuffLen && 0 !in Buffer[..end] {
        Buffer[end] := 0;
      }
    }

    /** Behind a complete header line: the body is over, or the data moves to the front of the buffer. */
    method TakeHeader(v: nat, end: nat)
      requires Valid() && v <= end <= BuffLen
      requires end < BuffLen || HexSize(Value().buf[v..end]) == 0
      modifies this, Buffer
      ensures Valid() && Buffer == old(Buffer) && BuffLen <= old(BuffLen)
      ensures Value() == old(var b := Value().buf;
                             if HexSize(b[v..end]) == 0 then State(Truncate(b, end), 0)
                             else State(b[end + 1..], HexSize(b[v..end])))
    {
      hide Truncate, HexSize;
      assert Buffer[v..end] == Buffer[..BuffLen][v..end];
      ChunkSize := HexSize(Buffer[v..end]);
      if ChunkSize == 0 {
        Terminate(end);
      } else {
        assert Buffer[end + 1..BuffLen] == Buffer[..BuffLen][end + 1..];
        MoveDown(end + 1, BuffLen - (end + 1), BuffLen - (end + 1));
      }
    }

    /** A pending chunk that is complete goes out as far as there is room. */
    method Send(end: nat, outLen: nat) returns (outcome: Outcome)
      requires Valid() && BuffLen <= end <= Buffer.Length
      modifies this, Buffer
      ensures Valid() && Buffer == old(Buffer)
      ensures Step(Value(), outcome) == Deliver(old(Value()), outLen)
    {
      outcome := Out([]);
      if BuffLen >= ChunkSize {
        var n := if ChunkSize > outLen then outLen else ChunkSize;
        assert Buffer[n..BuffLen] == Buffer[..BuffLen][n..];
        assert Buffer[..n] == Buffer[..BuffLen][..n];
        outcome := Out(Buffer[..n]);
        ChunkSize := ChunkSize - n;
        MoveDown(n, end - n, BuffLen - n);
      }
    }

    /** HTTPChunkedRead: the fragment, the room for output, and what the call returns. */
    method Read(input: seq<byte>, outLen: nat) returns (outcome: Outcome)
      requires Valid() && Defined(Value(), input)
      modifies this, Buffer
      ensures Valid() && (Buffer == old(Buffer) || fresh(Buffer))
      ensures Step(Value(), outcome) == ReadStep(old(Value()), input, outLen)
    {
      hide HexSize, HeaderEnd, HeaderStart, Deliver, Truncate;
      ghost var b := Value().buf + input;
      if |input| > 0 {
        Append(input);
      }
      assert Value() == State(b, old(ChunkSize));
      var end := BuffLen;
      if ChunkSize == 0 {
        if BuffLen == 0 && |input| < 1 {
          return Closed;
        }
        var v, lineEnd := HeaderBounds(|input| == 0);
        if lineEnd == BuffLen && |input| > 0 {
          return Out([]);
        }
        assert lineEnd == |b| ==> b[v..lineEnd] == b[v..];
        assert b == old(Value()).buf || |input| > 0;
        TakeHeader(v, lineEnd);
        if ChunkSize == 0 {
          return Closed;
        }
      }
      outcome := Send(end, outLen);
    }
  }

  // ---------------------------------------------------------------- the one-shot decoder

  /** The payload of a whole body of which size bytes of a chunk are pending; None when it is cut short. */
  function Decode(size: nat, s: seq<byte>): Option<seq<byte>>
    decreases |s|
  {
    if size > 0 then
      if |s| < size then None
      else Prepend(s[..size], Decode(0, s[size..]))
    else
      var lf := Find(s, HeaderStart(s), LF);
      if lf == |s| then None
      else
        var n := HexSize(s[HeaderStart(s)..lf]);
        if n == 0 then Some([]) else Decode(n, s[lf + 1..])
  }

  function Prepend(a: seq<byte>, b: Option<seq<byte>>): Option<seq<byte>> {
    if b.None? then None else Some(a + b.value)
  }

  /** A pending chunk may be taken in two parts. */
  lemma DecodeSplit(size: nat, s: seq<byte>, n: nat)
    requires n <= size <= |s|
    ensures Decode(size, s) == Prepend(s[..n], Decode(size - n, s[n..]))
  {
    if n > 0 {
      if n == size {
      } else {
        assert s[..size] == s[..n] + s[n..][..size - n];
        assert s[n..][size - n..] == s[size..];
        var tail := Decode(0, s[size..]);
        if tail.Some? {
          assert s[..size] + tail.value == s[..n] + (s[n..][..size - n] + tail.value);
        }
      }
    } else {
      assert s[n..] == s;
      if Decode(size, s).Some? {
        assert s[..0] + Decode(size, s).value == Decode(size, s).value;
      }
    }
  }

  lemma {:induction false} FindIs(b: seq<byte>, from: nat, c: byte, i: nat)
    requires from <= i < |b| && b[i] == c && forall k :: from <= k < i ==> b[k] != c
    ensures Find(b, from, c) == i
    decreases i - from
  {
    if from < i {
      FindIs(b, from + 1, c, i);
    }
  }

  /** A header line that is complete stays what it is when more input follows. */
  lemma HeaderStable(b: seq<byte>, rest: seq<byte>)
    requires Find(b, HeaderStart(b), LF) < |b|
    ensures HeaderStart(b + rest) == HeaderStart(b)
    ensures Find(b + rest, HeaderStart(b), LF) == Find(b, HeaderStart(b), LF)
  {
    FindIs(b + rest, HeaderStart(b), LF, Find(b, HeaderStart(b), LF));
  }

  /** What is left to output, seen from a state and the input still to come. */
  function Remaining(st: State, rest: seq<byte>): Option<seq<byte>> {
    Decode(st.chunkSize, st.buf + rest)
  }

  lemma DecodeShort(size: nat, s: seq<byte>)
    requires |s| < size
    ensures Decode(size, s).None?
  {
  }

  /** The one-shot decoder at a header. */
  lemma DecodeHeader(s: seq<byte>)
    ensures var lf := Find(s, HeaderStart(s), LF);
            if lf == |s| then Decode(0, s).None?
            else if HexSize(s[HeaderStart(s)..lf]) == 0 then Decode(0, s) == Some([])
            else Decode(0, s) == Decode(HexSize(s[HeaderStart(s)..lf]), s[lf + 1..])
  {
  }

  lemma PrependNothing(o: Option<seq<byte>>)
    ensures Prepend([], o) == o
  {
    if o.Some? {
      assert [] + o.value == o.value;
    }
  }

  lemma DeliverKeeps(st: State, rest: seq<byte>, outLen: nat)
    requires st.chunkSize > 0 && Remaining(st, rest).Some?
    ensures var r := Deliver(st, outLen);
            Remaining(st, rest) == Prepend(r.outcome.bytes, Remaining(r.state, rest))
    ensures rest == [] && outLen > 0 ==> Deliver(st, outLen).outcome.bytes != []
  {
    hide Decode, Prepend;
    var s := st.buf + rest;
    assert rest == [] ==> s == st.buf;
    if |st.buf| >= st.chunkSize {
      var n := Min(st.chunkSize, outLen);
      DecodeSplit(st.chunkSize, s, n);
      assert s[..n] == st.buf[..n];
      assert s[n..] == st.buf[n..] + rest;
    } else {
      PrependNothing(Remaining(st, rest));
      if |s| < st.chunkSize {
        DecodeShort(st.chunkSize, s);
      }
    }
  }

  lemma HeaderKeeps(b: seq<byte>, last: bool, rest: seq<byte>, outLen: nat)
    requires b != [] && Decode(0, b + rest).Some?
    requires last ==> HeaderDefined(b) && (rest == [] || Find(b, HeaderStart(b), LF) < |b|)
    ensures var r := ReadHeader(b, last, outLen);
            match r.outcome
            case Closed => Decode(0, b + rest) == Some([])
            case Out(o) => Decode(0, b + rest) == Prepend(o, Remaining(r.state, rest))
    ensures last && rest == [] && outLen > 0 && ReadHeader(b, last, outLen).outcome.Out?
        ==> ReadHeader(b, last, outLen).outcome.bytes != []
  {
    hide Decode, Prepend, HexSize, Deliver;
    assert rest == [] ==> b + rest == b;
    DecodeHeader(b + rest);
    var v, lf := HeaderStart(b), Find(b, HeaderStart(b), LF);
    if lf == |b| {
      PrependNothing(Decode(0, b + rest));
    } else {
      HeaderStable(b, rest);
      assert (b + rest)[v..lf] == b[v..lf];
      assert (b + rest)[lf + 1..] == b[lf + 1..] + rest;
      if HexSize(b[v..lf]) > 0 {
        DeliverKeeps(State(b[lf + 1..], HexSize(b[v..lf])), rest, outLen);
        DeliverIsOut(State(b[lf + 1..], HexSize(b[v..lf])), outLen);
      }
    }
  }

  lemma DeliverIsOut(st: State, outLen: nat)
    ensures Deliver(st, outLen).outcome.Out?
  {
  }

  /** A drain finds a pending chunk or a complete header line. */
  predicate Ready(st: State) {
    st.chunkSize > 0 || Find(st.buf, HeaderStart(st.buf), LF) < |st.buf|
  }

  /** What has arrived of the header line under way. */
  function Line(st: State): seq<byte> {
    st.buf[HeaderStart(st.buf)..]
  }

  const ONE: byte := 49

  /** A line that names 0 even with the digit 1 behind it. */
  predicate NamesNothing(line: seq<byte>) {
    HexSize(line + [ONE]) == 0
  }

  /** What a call without input may find while more input is still to come. */
  predicate Harmless(st: State) {
    Ready(st) || NamesNothing(Line(st))
  }

  /** A call keeps the account: what it returns and what is left then are what was left before. */
  predicate Keeps(st: State, input: seq<byte>, rest: seq<byte>, outLen: nat) {
    && Defined(st, input)
    && var r := ReadStep(st, input, outLen);
       match r.outcome
       case Closed => Remaining(st, input + rest) == Some([])
       case Out(o) => Remaining(st, input + rest) == Prepend(o, Remaining(r.state, rest))
  }

  lemma OneSize()
    ensures HexSize([49]) == 1
  {
  }

  /** A line that names nothing whatever follows has begun, so its start is settled. */
  lemma LineBegun(st: State, rest: seq<byte>)
    requires Line(st) != []
    ensures HeaderStart(st.buf + rest) == HeaderStart(st.buf)
  {
  }

  lemma NothingIsNotNamed()
    ensures !NamesNothing([])
  {
    OneSize();
    assert [] + [ONE] == [49];
  }

  lemma {:induction false} SkipBlanksExtends(p: seq<byte>, w: seq<byte>)
    requires SkipBlanks(p) != []
    ensures SkipBlanks(p + w) == SkipBlanks(p) + w
  {
    assert (p + w)[0] == p[0];
    if p[0] == 32 || 9 <= p[0] <= 13 {
      assert (p + w)[1..] == p[1..] + w;
      SkipBlanksExtends(p[1..], w);
    }
  }

  lemma {:induction false} HexRunAtReturn(p: seq<byte>, w: seq<byte>, v: nat)
    ensures HexRun(p + ([CR] + w), v) == HexRun(p, v)
  {
    if p == [] {
      assert p + ([CR] + w) == [CR] + w;
    } else {
      assert (p + ([CR] + w))[1..] == p[1..] + ([CR] + w);
      if IsHex(p[0]) {
        HexRunAtReturn(p[1..], w, 16 * v + HexDigit(p[0]));
      }
    }
  }

  lemma HexSizeOfBlank(p: seq<byte>)
    requires SkipBlanks(p) == []
    ensures HexSize(p) == 0
  {
  }

  lemma MagnitudeAtReturn(q: seq<byte>, w: seq<byte>)
    ensures Magnitude(q + ([CR] + w)) == Magnitude(q)
  {
    hide HexRun;
    var x := [CR] + w;
    HexRunAtReturn(q, w, 0);
    if |q| > 2 {
      assert (q + x)[2..] == q[2..] + x;
      HexRunAtReturn(q[2..], w, 0);
    } else if |q| == 2 {
      assert (q + x)[2] == CR;
    } else if |q| == 1 {
      assert (q + x)[1] == CR;
    }
  }

  lemma {:induction false} SkipBlanksThrough(p: seq<byte>, w: seq<byte>)
    requires SkipBlanks(p) == []
    ensures SkipBlanks(p + w) == SkipBlanks(w)
  {
    if p == [] {
      assert p + w == w;
    } else {
      assert (p + w)[1..] == p[1..] + w;
      SkipBlanksThrough(p[1..], w);
    }
  }

  predicate HexOnly(p: seq<byte>) {
    forall i :: 0 <= i < |p| ==> IsHex(p[i])
  }

  /** Behind a byte that is no digit nothing changes the number; behind digits a 1 makes it one above 0. */
  lemma {:induction false} HexRunOn(p: seq<byte>, w: seq<byte>, v: nat)
    ensures !HexOnly(p) ==> HexRun(p + w, v) == HexRun(p, v)
    ensures HexOnly(p) ==> HexRun(p + [ONE], v) > 0
  {
    if p == [] {
      assert p + [ONE] == [ONE];
      assert HexRun([ONE][1..], 16 * v + 1) == 16 * v + 1;
    } else {
      assert (p + w)[1..] == p[1..] + w && (p + [ONE])[1..] == p[1..] + [ONE];
      if IsHex(p[0]) {
        HexRunOn(p[1..], w, 16 * v + HexDigit(p[0]));
        assert HexOnly(p) <==> HexOnly(p[1..]);
      }
    }
  }

  lemma MagnitudeOn(q: seq<byte>, w: seq<byte>)
    requires Magnitude(q + [ONE]) == 0
    ensures Magnitude(q + w) == 0
  {
    hide HexRun;
    HexRunOn(q, w, 0);
    HexRunOn(q, [ONE], 0);
    if |q| >= 2 {
      assert (q + w)[2..] == q[2..] + w && (q + [ONE])[2..] == q[2..] + [ONE];
      HexRunOn(q[2..], w, 0);
      HexRunOn(q[2..], [ONE], 0);
    }
  }

  lemma SizeOfMagnitude(s: seq<byte>)
    ensures var p := SkipBlanks(s);
            var q := if p != [] && (p[0] == 45 || p[0] == 43) then p[1..] else p;
            HexSize(s) == 0 <==> Magnitude(q) == 0
  {
    hide SkipBlanks, Magnitude;
  }

  /** One digit decides what every continuation of a line names. */
  lemma NothingEver(line: seq<byte>, u: seq<byte>)
    requires NamesNothing(line)
    ensures HexSize(line + u) == 0
  {
    hide Magnitude, HexSize, SkipBlanks;
    SizeOfMagnitude(line + u);
    SizeOfMagnitude(line + [ONE]);
    if SkipBlanks(line) == [] {
      SkipBlanksThrough(line, [ONE]);
      OneIsOne();
    }
    SkipBlanksExtends(line, u);
    SkipBlanksExtends(line, [ONE]);
    var p := SkipBlanks(line);
    assert (p + u)[0] == p[0] == (p + [ONE])[0];
    assert (p + u)[1..] == p[1..] + u && (p + [ONE])[1..] == p[1..] + [ONE];
    MagnitudeOn(if p[0] == 45 || p[0] == 43 then p[1..] else p, u);
  }

  lemma OneIsOne()
    ensures SkipBlanks([ONE]) == [ONE] && Magnitude([ONE]) == 1
  {
    assert HexRun([ONE][1..], 1) == 1;
  }

  /** So the line names nothing, however it goes on, exactly when it names nothing with a 1 behind it. */
  lemma NamesNothingIff(line: seq<byte>)
    ensures (forall u :: LF !in u ==> HexSize(line + u) == 0) <==> HexSize(line + [ONE]) == 0
  {
    hide HexSize;
    if NamesNothing(line) {
      forall u: seq<byte>
        ensures HexSize(line + u) == 0
      {
        NothingEver(line, u);
      }
    } else {
      assert LF !in [ONE];
    }
  }

  /** A size that is named in front of a '\r' stays what it is. */
  lemma HexSizeAtReturn(p: seq<byte>, w: seq<byte>)
    requires HexSize(p) != 0
    ensures HexSize(p + ([CR] + w)) == HexSize(p)
  {
    hide Magnitude, SkipBlanks;
    if SkipBlanks(p) == [] {
      HexSizeOfBlank(p);
    }
    var x := [CR] + w;
    SkipBlanksExtends(p, x);
    var s := SkipBlanks(p);
    assert (s + x)[0] == s[0] && (s + x)[1..] == s[1..] + x;
    MagnitudeAtReturn(if s[0] == 45 || s[0] == 43 then s[1..] else s, w);
  }

  lemma SizeAtReturn(st: State, u: seq<byte>)
    requires !Ready(st) && HeaderEnd(st.buf, true) < |st.buf|
    requires HexSize(st.buf[HeaderStart(st.buf)..HeaderEnd(st.buf, true)]) != 0
    ensures HexSize(Line(st) + u) == HexSize(st.buf[HeaderStart(st.buf)..HeaderEnd(st.buf, true)])
  {
    hide HexSize;
    var b, end := st.buf, HeaderEnd(st.buf, true);
    HexSizeAtReturn(b[HeaderStart(b)..end], b[end + 1..] + u);
    assert Line(st) + u == b[HeaderStart(b)..end] + ([CR] + (b[end + 1..] + u));
  }

  lemma FreeOf(s: seq<byte>, v: nat, lf: nat, c: byte)
    requires v <= lf <= |s| && lf == Find(s, v, c)
    ensures c !in s[v..lf]
  {
  }

  lemma NotInTail(s: seq<byte>, t: seq<byte>, c: byte)
    requires c !in s + t
    ensures c !in t
  {
    assert forall k :: 0 <= k < |t| ==> (s + t)[|s| + k] == t[k];
  }

  lemma SliceOver(a: seq<byte>, b: seq<byte>, v: nat, n: nat)
    requires v <= |a| <= n <= |a + b|
    ensures (a + b)[v..n] == a[v..] + b[..n - |a|]
  {
  }

  lemma LineGoesOn(st: State, rest: seq<byte>, lf: nat)
    requires !Ready(st) && lf == Find(st.buf + rest, HeaderStart(st.buf), LF)
    ensures |st.buf| <= lf
    ensures (st.buf + rest)[HeaderStart(st.buf)..lf] == Line(st) + rest[..lf - |st.buf|]
    ensures LF !in rest[..lf - |st.buf|]
  {
    var s, v := st.buf + rest, HeaderStart(st.buf);
    assert lf >= |st.buf| by {
      assert forall k :: v <= k < |st.buf| ==> s[k] == st.buf[k] != LF;
    }
    FreeOf(s, v, lf, LF);
    hide Find, HeaderStart;
    SliceOver(st.buf, rest, v, lf);
    NotInTail(Line(st), rest[..lf - |st.buf|], LF);
  }

  /** Where the line goes on to name nothing, the whole body ends there. */
  lemma NothingLeft(st: State, rest: seq<byte>)
    requires !Ready(st) && NamesNothing(Line(st)) && Remaining(st, rest).Some?
    ensures Remaining(st, rest) == Some([])
  {
    hide HexSize, Decode, HeaderStart, Find, Line;
    NothingIsNotNamed();
    LineBegun(st, rest);
    DecodeHeader(st.buf + rest);
    var lf := Find(st.buf + rest, HeaderStart(st.buf), LF);
    LineGoesOn(st, rest, lf);
    NothingEver(Line(st), rest[..lf - |st.buf|]);
  }

  /** And a call without input closes. */
  lemma NothingCloses(st: State, outLen: nat)
    requires !Ready(st) && NamesNothing(Line(st))
    ensures Defined(st, []) && ReadStep(st, [], outLen).outcome.Closed?
  {
    hide HexSize;
    var b := st.buf;
    assert b + [] == b;
    NothingEver(Line(st), []);
    assert Line(st) + [] == Line(st);
    var v, end := HeaderStart(b), HeaderEnd(b, true);
    assert end == |b| ==> b[v..end] == Line(st);
    if end < |b| && HexSize(b[v..end]) != 0 {
      SizeAtReturn(st, []);
    }
    hide HeaderEnd, HeaderStart, Line, NamesNothing;
  }

  /**
   Each call keeps the account; it closes only when nothing is left; and a call that drains a complete body makes
   progress.
   */
  lemma ReadKeeps(st: State, input: seq<byte>, rest: seq<byte>, outLen: nat)
    requires Remaining(st, input + rest).Some? && (input == [] ==> rest == [] || Harmless(st))
    ensures Keeps(st, input, rest, outLen)
    ensures input == [] && rest == [] && outLen > 0 && ReadStep(st, input, outLen).outcome.Out?
        ==> ReadStep(st, input, outLen).outcome.bytes != []
  {
    hide NamesNothing, HexSize;
    var b := st.buf + input;
    assert st.buf + (input + rest) == b + rest;
    assert input == [] ==> b == st.buf;
    assert rest == [] ==> b + rest == b;
    if st.chunkSize > 0 {
      DeliverKeeps(State(b, st.chunkSize), rest, outLen);
    } else if input == [] && rest != [] && !Ready(st) {
      assert [] + rest == rest;
      NothingLeft(st, rest);
      NothingCloses(st, outLen);
    } else if b != [] {
      assert input == [] ==> HeaderDefined(b);
      HeaderKeeps(b, input == [], rest, outLen);
    }
  }

  // ---------------------------------------------------------------- calls without input

  /** What is delivered first from a pending chunk is what follows the header. */
  lemma FirstDelivered(st: State, rest: seq<byte>, outLen: nat, y: seq<byte>)
    requires st.chunkSize > 0 && Deliver(st, outLen).outcome.Out?
    requires Prepend(Deliver(st, outLen).outcome.bytes, Remaining(Deliver(st, outLen).state, rest)) == Some(y)
    ensures y != [] && st.buf + rest != [] && y[0] == (st.buf + rest)[0]
  {
    var r := Deliver(st, outLen);
    if r.outcome.bytes != [] {
      assert y[0] == r.outcome.bytes[0] == st.buf[0];
    } else {
      assert r.state.buf == st.buf;
      var s := st.buf + rest;
      assert Decode(st.chunkSize, s) == Prepend(s[..st.chunkSize], Decode(0, s[st.chunkSize..]));
    }
  }

  function LastChunk(): seq<byte> { [48, LF] }

  lemma LastChunkEnds()
    ensures Decode(0, LastChunk()) == Some([])
  {
    hide Decode;
    var s := LastChunk();
    assert HeaderStart(s) == 0;
    FindIs(s, 0, LF, 1);
    assert s[0..1] == [48];
    assert HexSize([48]) == 0;
    DecodeHeader(s);
  }

  /** A body that completes the line under way with u, and then holds one chunk. */
  function Completion(u: seq<byte>, data: seq<byte>): seq<byte> {
    u + ([LF] + (data + LastChunk()))
  }

  lemma StartSettled(st: State, u: seq<byte>, data: seq<byte>)
    requires Line(st) != [] || u == [49]
    ensures HeaderStart(st.buf + Completion(u, data)) == HeaderStart(st.buf)
  {
    if Line(st) != [] {
      LineBegun(st, Completion(u, data));
    }
  }

  lemma CompletionLine(st: State, u: seq<byte>, data: seq<byte>)
    requires !Ready(st) && LF !in u
    ensures Find(st.buf + Completion(u, data), HeaderStart(st.buf), LF) == |st.buf| + |u|
  {
    var s, v, lf := st.buf + Completion(u, data), HeaderStart(st.buf), |st.buf| + |u|;
    assert s == st.buf + u + ([LF] + (data + LastChunk()));
    assert forall k :: v <= k < |st.buf| ==> s[k] == st.buf[k];
    assert forall k :: |st.buf| <= k < lf ==> s[k] == u[k - |st.buf|];
    hide HeaderStart;
    FindIs(s, v, LF, lf);
  }

  lemma CompletionDecodes(st: State, u: seq<byte>, data: seq<byte>)
    requires !Ready(st) && LF !in u && HexSize(Line(st) + u) == |data| > 0
    requires Line(st) != [] || u == [49]
    ensures Remaining(st, Completion(u, data)) == Some(data)
  {
    hide HexSize, Decode, Prepend, Find, HeaderStart, LastChunk;
    var s, v, lf := st.buf + Completion(u, data), HeaderStart(st.buf), |st.buf| + |u|;
    StartSettled(st, u, data);
    CompletionLine(st, u, data);
    assert s[v..lf] == Line(st) + u;
    var t := data + LastChunk();
    assert s[lf + 1..] == t;
    DecodeHeader(s);
    DecodeSplit(|data|, t, |data|);
    assert t[..|data|] == data && t[|data|..] == LastChunk();
    LastChunkEnds();
    PrependEnd(data);
  }

  lemma PrependEnd(data: seq<byte>)
    ensures Prepend(data, Some([])) == Some(data)
  {
    assert data + [] == data;
  }

  /** The call takes the line for complete, and what follows the line so far for the chunk's data. */
  lemma EarlyOut(st: State, outLen: nat)
    requires !Ready(st) && Defined(st, []) && ReadStep(st, [], outLen).outcome.Out?
    ensures var end := HeaderEnd(st.buf, true);
            var size := HexSize(st.buf[HeaderStart(st.buf)..end]);
            && end < |st.buf| && size > 0
            && ReadStep(st, [], outLen) == Deliver(State(st.buf[end + 1..], size), outLen)
  {
    hide HexSize, Deliver, HeaderEnd;
    assert st.buf + [] == st.buf;
  }

  /** Some further input makes a call that is not harmless go wrong. */
  lemma HarmShows(st: State, outLen: nat) returns (rest: seq<byte>)
    requires !Harmless(st)
    ensures Remaining(st, rest).Some? && !Keeps(st, [], rest, outLen)
  {
    hide HexSize, Decode, ReadStep, Deliver, HeaderEnd, HeaderStart, Find, Defined, Prepend;
    var u := [ONE];
    var end := HeaderEnd(st.buf, true);
    var early := if end < |st.buf| then st.buf[end + 1..] else [];
    var wrong: byte := if (early + u + [LF])[0] == 0 then 1 else 0;
    var data := seq(HexSize(Line(st) + u), _ => wrong);
    rest := Completion(u, data);
    CompletionDecodes(st, u, data);
    assert [] + rest == rest;
    assert early + rest == (early + u + [LF]) + (data + LastChunk());
    if Keeps(st, [], rest, outLen) {
      EarlyOut(st, outLen);
      FirstDelivered(State(early, HexSize(st.buf[HeaderStart(st.buf)..end])), rest, outLen, data);
    }
  }

  /**
   Exactly when a call without input does no harm, whatever is still to come: a chunk is pending, a whole header
   line is there, or the line under way names 0 even with a 1 behind it, and so no size however it goes on.
   */
  lemma EarlyDrainIff(st: State, outLen: nat)
    ensures (forall rest :: Remaining(st, rest).Some? ==> Keeps(st, [], rest, outLen))
        <==> Ready(st) || HexSize(st.buf[HeaderStart(st.buf)..] + [ONE]) == 0
  {
    hide HexSize, Remaining, Keeps, Ready;
    if Harmless(st) {
      forall rest | Remaining(st, rest).Some?
        ensures Keeps(st, [], rest, outLen)
      {
        assert [] + rest == rest;
        ReadKeeps(st, [], rest, outLen);
      }
    } else {
      var rest := HarmShows(st, outLen);
    }
  }

  // ---------------------------------------------------------------- whole transfers

  /** A call: the fragment that has arrived (nothing, when only draining) and the room for output. */
  datatype Call = Call(input: seq<byte>, outLen: nat)

  function Inputs(calls: seq<Call>): seq<byte> {
    if calls == [] then [] else calls[0].input + Inputs(calls[1..])
  }

  /** How many calls follow the last fragment. */
  function Drains(calls: seq<Call>): nat {
    if Inputs(calls) == [] then |calls| else Drains(calls[1..])
  }

  datatype Transfer = Transfer(out: seq<byte>, closed: bool, state: State)

  predicate Safe(st: State, calls: seq<Call>)
    decreases |calls|
  {
    calls == []
    || (Defined(st, calls[0].input)
        && var r := ReadStep(st, calls[0].input, calls[0].outLen);
           r.outcome.Closed? || Safe(r.state, calls[1..]))
  }

  /** There is always room for a byte, and a call without input in front of the last fragment does no harm. */
  predicate Ordered(st: State, calls: seq<Call>)
    decreases |calls|
  {
    calls == []
    || (&& calls[0].outLen > 0
        && (calls[0].input == [] ==> Inputs(calls[1..]) == [] || Harmless(st))
        && (Defined(st, calls[0].input) ==>
              var r := ReadStep(st, calls[0].input, calls[0].outLen);
              r.outcome.Closed? || Ordered(r.state, calls[1..])))
  }

  /** All that a sequence of calls delivers, up to the call that closes. */
  function Deliveries(st: State, calls: seq<Call>): Transfer
    requires Safe(st, calls)
    decreases |calls|
  {
    if calls == [] then Transfer([], false, st)
    else
      var r := ReadStep(st, calls[0].input, calls[0].outLen);
      match r.outcome
      case Closed => Transfer([], true, r.state)
      case Out(o) =>
        var t := Deliveries(r.state, calls[1..]);
        Transfer(o + t.out, t.closed, t.state)
  }

  lemma {:induction false} NoInputs(calls: seq<Call>)
    requires forall j :: 0 <= j < |calls| ==> calls[j].input == []
    ensures Inputs(calls) == []
  {
    if calls != [] {
      NoInputs(calls[1..]);
    }
  }

  /** Fragments first and then calls without input is one way to be in order. */
  lemma {:induction false} FragmentsThenDrains(st: State, calls: seq<Call>)
    requires forall i :: 0 <= i < |calls| ==> calls[i].outLen > 0
    requires forall i, j :: 0 <= i < j < |calls| && calls[i].input == [] ==> calls[j].input == []
    ensures Ordered(st, calls)
    decreases |calls|
  {
    hide ReadStep, Defined, Harmless;
    if calls != [] {
      var c, rest := calls[0], calls[1..];
      if c.input == [] {
        NoInputs(rest);
      }
      if Defined(st, c.input) {
        FragmentsThenDrains(ReadStep(st, c.input, c.outLen).state, rest);
      }
    }
  }

  lemma {:induction false} DeliveriesKeep(st: State, calls: seq<Call>)
    requires Ordered(st, calls) && Remaining(st, Inputs(calls)).Some?
    ensures Safe(st, calls)
    ensures var t := Deliveries(st, calls);
            if t.closed then Remaining(st, Inputs(calls)) == Some(t.out)
            else Remaining(st, Inputs(calls)) == Prepend(t.out, Remaining(t.state, []))
    ensures !Deliveries(st, calls).closed ==> |Deliveries(st, calls).out| >= Drains(calls)
    decreases |calls|
  {
    hide ReadStep, Decode, Defined, Harmless;
    if calls == [] {
      PrependNothing(Remaining(st, []));
    } else {
      var c, rest := calls[0], calls[1..];
      ReadKeeps(st, c.input, Inputs(rest), c.outLen);
      var r := ReadStep(st, c.input, c.outLen);
      if r.outcome.Out? {
        DeliveriesKeep(r.state, rest);
        var t := Deliveries(r.state, rest);
        PrependTwice(r.outcome.bytes, t.out, Remaining(t.state, []));
        DrainsStep(calls);
      }
    }
  }

  lemma DrainsStep(calls: seq<Call>)
    requires calls != []
    ensures Drains(calls) <= Drains(calls[1..]) + (if Inputs(calls) == [] then 1 else 0)
  {
  }

  lemma PrependTwice(a: seq<byte>, b: seq<byte>, o: Option<seq<byte>>)
    ensures Prepend(a, Prepend(b, o)) == Prepend(a + b, o)
  {
    if o.Some? {
      assert a + (b + o.value) == a + b + o.value;
    }
  }

  /**
   Fragmentation independence: however a body is cut into fragments, however little room each call has, and
   whatever calls without input come between the fragments and do no harm, the bytes delivered up to the close
   are the payload of the one-shot decoder, and enough draining calls always reach the close.
   */
  lemma FragmentationIndependence(body: seq<byte>, payload: seq<byte>, calls: seq<Call>)
    requires Decode(0, body) == Some(payload)
    requires Ordered(State([], 0), calls) && Inputs(calls) == body
    ensures Safe(State([], 0), calls)
    ensures var t := Deliveries(State([], 0), calls);
            && t.out <= payload
            && (t.closed ==> t.out == payload)
            && (Drains(calls) > |payload| ==> t.closed)
  {
    hide Decode, Deliveries, Safe, Ordered, Drains;
    assert [] + body == body;
    DeliveriesKeep(State([], 0), calls);
  }

  // ---------------------------------------------------------------- well-formed bodies

  /** A chunk as section 7.1 of RFC 9112 writes it: size in hexadecimal, extension, data. */
  datatype Chunk = Chunk(size: seq<byte>, ext: seq<byte>, data: seq<byte>)

  predicate AllHex(s: seq<byte>) {
    s != [] && forall i :: 0 <= i < |s| ==> IsHex(s[i])
  }

  /** An extension starts with a semicolon or white space and stays on its line. */
  predicate ValidExt(ext: seq<byte>) {
    (ext != [] ==> ext[0] == 59 || ext[0] == 32 || ext[0] == 9) && LF !in ext
  }

  /** A hexadecimal digit, in either case. */
  predicate DigitOf(b: byte, d: nat) {
    d < 16 && (b == "0123456789abcdef"[d] as int || b == "0123456789ABCDEF"[d] as int)
  }

  /** The text of a number to the base 16, zeros in front of it included: its last digit is the remainder by 16. */
  predicate HexOf(s: seq<byte>, n: nat) {
    && s != [] && DigitOf(s[|s| - 1], n % 16)
    && (if |s| == 1 then n < 16 else HexOf(s[..|s| - 1], n / 16))
  }

  predicate ValidChunk(c: Chunk) {
    HexOf(c.size, |c.data|) && ValidExt(c.ext) && 0 < |c.data| <= LONG_MAX
  }

  function HeaderLine(size: seq<byte>, ext: seq<byte>): seq<byte> {
    size + (ext + [CR, LF])
  }

  function ChunkText(c: Chunk): seq<byte> {
    HeaderLine(c.size, c.ext) + (c.data + [CR, LF])
  }

  /** The bytes of a chunk. */
  lemma ChunkBytes(c: Chunk)
    ensures ChunkText(c) == c.size + c.ext + [13, 10] + c.data + [13, 10]
  {
  }

  /** Chunks, then a last chunk of size zero, then trailer lines and the final line end. */
  function Body(chunks: seq<Chunk>, zeros: seq<byte>, ext: seq<byte>, trailer: seq<byte>): seq<byte> {
    if chunks == [] then HeaderLine(zeros, ext) + trailer
    else ChunkText(chunks[0]) + Body(chunks[1..], zeros, ext, trailer)
  }

  function Payload(chunks: seq<Chunk>): seq<byte> {
    if chunks == [] then [] else chunks[0].data + Payload(chunks[1..])
  }

  lemma DigitIs(b: byte, d: nat)
    requires DigitOf(b, d)
    ensures IsHex(b) && HexDigit(b) == d
  {
  }

  lemma {:induction false} HexRunLast(s: seq<byte>, b: byte, v: nat)
    requires (forall i :: 0 <= i < |s| ==> IsHex(s[i])) && IsHex(b)
    ensures HexRun(s + [b], v) == 16 * HexRun(s, v) + HexDigit(b)
  {
    if s == [] {
      assert s + [b] == [b] && HexRun([b][1..], 16 * v + HexDigit(b)) == 16 * v + HexDigit(b);
    } else {
      assert (s + [b])[1..] == s[1..] + [b];
      HexRunLast(s[1..], b, 16 * v + HexDigit(s[0]));
    }
  }

  /** Reading the text of a number gives the number. */
  lemma {:induction false} HexRunOfHex(s: seq<byte>, n: nat)
    requires HexOf(s, n)
    ensures AllHex(s) && HexRun(s, 0) == n
  {
    hide DigitOf, HexDigit, HexRun;
    var front, b := s[..|s| - 1], s[|s| - 1];
    DigitIs(b, n % 16);
    assert s == front + [b];
    if |s| == 1 {
      assert front == [];
      HexRunOfNothing();
    } else {
      HexRunOfHex(front, n / 16);
    }
    HexRunLast(front, b, 0);
  }

  lemma HexRunOfNothing()
    ensures HexRun([], 0) == 0
  {
  }

  /** The shortest text of a number, in small letters. */
  function HexText(n: nat): (s: seq<byte>)
    ensures HexOf(s, n)
  {
    var digit: int := "0123456789abcdef"[n % 16] as int;
    if n < 16 then [digit]
    else
      var front := HexText(n / 16);
      assert (front + [digit])[..|front|] == front;
      front + [digit]
  }

  lemma {:induction false} HexRunStops(size: seq<byte>, rest: seq<byte>, v: nat)
    requires forall i :: 0 <= i < |size| ==> IsHex(size[i])
    requires rest != [] && !IsHex(rest[0])
    ensures HexRun(size + rest, v) == HexRun(size, v)
  {
    if size == [] {
      assert size + rest == rest;
    } else {
      assert (size + rest)[1..] == size[1..] + rest;
      HexRunStops(size[1..], rest, 16 * v + HexDigit(size[0]));
    }
  }

  /** Whatever follows the digits on the line, strtol reads the size. */
  lemma HexSizeOfHeader(size: seq<byte>, ext: seq<byte>)
    requires AllHex(size) && ValidExt(ext) && HexRun(size, 0) <= LONG_MAX
    ensures HexSize(size + (ext + [CR])) == HexRun(size, 0)
  {
    hide HexRun;
    var rest := ext + [CR];
    var s := size + rest;
    assert s[0] == size[0];
    assert |s| > 1 ==> s[1] == if |size| > 1 then size[1] else rest[0];
    HexRunStops(size, rest, 0);
  }

  /**
   What strtol makes of every size line that starts with a number: white space in front is skipped, a sign and the
   prefix "0x" are taken, too large a number becomes the largest, and a negative one wraps around.
   */
  lemma SizeForms(blanks: seq<byte>, h: seq<byte>, n: nat, rest: seq<byte>)
    requires forall i :: 0 <= i < |blanks| ==> blanks[i] == 32 || 9 <= blanks[i] <= 13
    requires HexOf(h, n) && (rest == [] || (!IsHex(rest[0]) && rest[0] != 120 && rest[0] != 88))
    ensures HexSize(blanks + (h + rest)) == if n > LONG_MAX then LONG_MAX else n
    ensures HexSize(blanks + ([43] + (h + rest))) == if n > LONG_MAX then LONG_MAX else n
    ensures HexSize(blanks + ([45] + (h + rest)))
         == if n > LONG_MAX then LONG_MAX + 1 else if n == 0 then 0 else 0x1_0000_0000_0000_0000 - n
    ensures HexSize(blanks + ([48, 120] + (h + rest))) == if n > LONG_MAX then LONG_MAX else n
  {
    HexRunOfHex(h, n);
    MagnitudeOfHex(h, rest);
    BehindPrefix(h, rest);
    var q := h + rest;
    assert q[0] == h[0];
    BlanksSkipped(blanks, q);
    BlanksSkipped(blanks, [43] + q);
    BlanksSkipped(blanks, [45] + q);
    BlanksSkipped(blanks, [48, 120] + q);
    SizeOfSign(blanks + q, q, q, 0);
    SizeOfSign(blanks + ([43] + q), [43] + q, q, 43);
    SizeOfSign(blanks + ([45] + q), [45] + q, q, 45);
    SizeOfSign(blanks + ([48, 120] + q), [48, 120] + q, [48, 120] + q, 0);
    hide *;
  }

  /** A size behind white space and, unless it is 0, a sign. */
  lemma SizeOfSign(s: seq<byte>, p: seq<byte>, q: seq<byte>, sign: byte)
    requires SkipBlanks(s) == p && p == (if sign == 0 then [] else [sign]) + q && q != [] && IsHex(q[0])
    requires sign == 0 || sign == 43 || sign == 45
    ensures var m := Magnitude(q);
            HexSize(s) == if sign != 45 then (if m > LONG_MAX then LONG_MAX else m)
                          else if m > LONG_MAX then LONG_MAX + 1
                          else if m == 0 then 0 else 0x1_0000_0000_0000_0000 - m
  {
    hide SkipBlanks, Magnitude;
    assert sign == 0 ==> p == q;
    assert sign != 0 ==> p[1..] == q;
  }

  /** "0x" in front of digits changes nothing. */
  lemma BehindPrefix(h: seq<byte>, rest: seq<byte>)
    requires AllHex(h)
    ensures Magnitude([48, 120] + (h + rest)) == HexRun(h + rest, 0)
  {
    hide HexRun;
    var x := [48, 120] + (h + rest);
    assert x[2] == h[0] && x[2..] == h + rest;
  }

  lemma {:induction false} BlanksSkipped(blanks: seq<byte>, s: seq<byte>)
    requires forall i :: 0 <= i < |blanks| ==> blanks[i] == 32 || 9 <= blanks[i] <= 13
    requires s != [] && s[0] != 32 && !(9 <= s[0] <= 13)
    ensures SkipBlanks(blanks + s) == s
  {
    if blanks == [] {
      assert blanks + s == s;
    } else {
      assert (blanks + s)[1..] == blanks[1..] + s;
      BlanksSkipped(blanks[1..], s);
    }
  }

  lemma HexRunStopped(h: seq<byte>, rest: seq<byte>)
    requires AllHex(h) && (rest == [] || !IsHex(rest[0]))
    ensures HexRun(h + rest, 0) == HexRun(h, 0)
  {
    if rest == [] {
      assert h + rest == h;
    } else {
      HexRunStops(h, rest, 0);
    }
  }

  lemma MagnitudeOfHex(h: seq<byte>, rest: seq<byte>)
    requires AllHex(h) && (rest == [] || (!IsHex(rest[0]) && rest[0] != 120 && rest[0] != 88))
    ensures Magnitude(h + rest) == HexRun(h + rest, 0) == HexRun(h, 0)
  {
    hide HexRun;
    HexRunStopped(h, rest);
    var q := h + rest;
    assert |q| > 1 ==> q[1] == if |h| > 1 then h[1] else rest[0];
  }

  lemma FindInFront(before: seq<byte>, line: seq<byte>, rest: seq<byte>)
    requires LF !in line
    ensures Find(before + ((line + [LF]) + rest), |before|, LF) == |before| + |line|
  {
    var s := before + ((line + [LF]) + rest);
    assert forall k :: |before| <= k < |before| + |line| ==> s[k] == line[k - |before|];
    assert s[|before| + |line|] == LF;
    FindIs(s, |before|, LF, |before| + |line|);
  }

  lemma StartBehind(before: seq<byte>, t: seq<byte>)
    requires before == [] || before == [CR, LF]
    requires t != [] && t[0] != CR && t[0] != LF
    ensures HeaderStart(before + t) == |before|
  {
    assert (before + t)[|before|] == t[0];
    assert before != [] ==> (before + t)[0] == CR && (before + t)[1] == LF;
  }

  lemma NoLineEnd(size: seq<byte>, ext: seq<byte>)
    requires AllHex(size) && ValidExt(ext)
    ensures LF !in size + (ext + [CR])
  {
  }

  lemma LineEnds(before: seq<byte>, size: seq<byte>, ext: seq<byte>, rest: seq<byte>)
    requires before == [] || before == [CR, LF]
    requires AllHex(size) && ValidExt(ext)
    ensures var s := before + (HeaderLine(size, ext) + rest);
            && HeaderStart(s) == |before|
            && Find(s, |before|, LF) == |before| + |size| + |ext| + 1
  {
    var line, t := size + (ext + [CR]), HeaderLine(size, ext) + rest;
    assert HeaderLine(size, ext) == line + [LF];
    assert IsHex(size[0]) && t[0] == size[0];
    NoLineEnd(size, ext);
    hide *;
    StartBehind(before, t);
    FindInFront(before, line, rest);
  }

  /** The one-shot decoder at a well-formed header, with or without the line end of the chunk before. */
  lemma DecodeLine(before: seq<byte>, size: seq<byte>, ext: seq<byte>, rest: seq<byte>)
    requires before == [] || before == [CR, LF]
    requires AllHex(size) && ValidExt(ext) && HexRun(size, 0) <= LONG_MAX
    ensures var s := before + (HeaderLine(size, ext) + rest);
            Decode(0, s) == if HexRun(size, 0) == 0 then Some([]) else Decode(HexRun(size, 0), rest)
  {
    hide Decode, HexRun, HexSize, HeaderStart, Find, AllHex, ValidExt;
    var s := before + (HeaderLine(size, ext) + rest);
    LineEnds(before, size, ext, rest);
    var lf := |before| + |size| + |ext| + 1;
    assert s[|before|..lf] == size + (ext + [CR]);
    assert s[lf + 1..] == rest;
    DecodeHeader(s);
    HexSizeOfHeader(size, ext);
  }

  lemma {:induction false} DecodeBody(before: seq<byte>, chunks: seq<Chunk>, zeros: seq<byte>, ext: seq<byte>,
                                      trailer: seq<byte>)
    requires before == [] || before == [CR, LF]
    requires forall i :: 0 <= i < |chunks| ==> ValidChunk(chunks[i])
    requires HexOf(zeros, 0) && ValidExt(ext)
    ensures Decode(0, before + Body(chunks, zeros, ext, trailer)) == Some(Payload(chunks))
    decreases |chunks|
  {
    hide Decode, HexRun, HexOf, HeaderLine, AllHex, ValidExt;
    if chunks == [] {
      HexRunOfHex(zeros, 0);
      DecodeLine(before, zeros, ext, trailer);
    } else {
      var c := chunks[0];
      var after := [CR, LF] + Body(chunks[1..], zeros, ext, trailer);
      assert Body(chunks, zeros, ext, trailer) == HeaderLine(c.size, c.ext) + (c.data + after);
      HexRunOfHex(c.size, |c.data|);
      DecodeLine(before, c.size, c.ext, c.data + after);
      DecodeSplit(|c.data|, c.data + after, |c.data|);
      assert (c.data + after)[..|c.data|] == c.data && (c.data + after)[|c.data|..] == after;
      DecodeBody([CR, LF], chunks[1..], zeros, ext, trailer);
    }
  }

  /** For every well-formed body and every way to feed and drain it, exactly its chunk data comes out. */
  lemma WellFormedTransfer(chunks: seq<Chunk>, zeros: seq<byte>, ext: seq<byte>, trailer: seq<byte>, calls: seq<Call>)
    requires forall i :: 0 <= i < |chunks| ==> ValidChunk(chunks[i])
    requires HexOf(zeros, 0) && ValidExt(ext)
    requires Ordered(State([], 0), calls) && Inputs(calls) == Body(chunks, zeros, ext, trailer)
    requires Drains(calls) > |Payload(chunks)|
    ensures Safe(State([], 0), calls)
    ensures Deliveries(State([], 0), calls).closed && Deliveries(State([], 0), calls).out == Payload(chunks)
  {
    hide Deliveries, Safe, Decode, Body, Drains, Ordered, HexOf;
    assert [] + Inputs(calls) == Inputs(calls);
    DecodeBody([], chunks, zeros, ext, trailer);
    FragmentationIndependence(Inputs(calls), Payload(chunks), calls);
  }

  /**
   A drain in the middle of a header line is another matter: here "1\r" is taken for a whole line, and the
   "\n" that comes next for the chunk's data.
   */
  lemma EarlyDrainGoesWrong()
    ensures Inputs(EarlyCalls()) == Body([Chunk([49], [], [65])], [48], [], [CR, LF])
    ensures Safe(State([], 0), EarlyCalls())
    ensures Deliveries(State([], 0), EarlyCalls()).out == [LF]
  {
    hide ReadStep, Defined, Deliveries, Safe;
    EarlyInputs();
    FirstCall();
    SecondCall();
    ThirdCall(EarlyTail());
    ThreeCalls(State([], 0), State([49, CR], 0), State([], 1), Call([49, CR], 9), Call([], 9), Call(EarlyTail(), 9));
  }

  lemma EarlyInputs()
    ensures Inputs(EarlyCalls()) == Body([Chunk([49], [], [65])], [48], [], [CR, LF])
  {
    var c1, c2, c3 := Call([49, CR], 9), Call([], 9), Call(EarlyTail(), 9);
    assert EarlyCalls()[1..] == [c2, c3] && [c2, c3][1..] == [c3] && [c3][1..] == [];
  }

  lemma ThreeCalls(st0: State, st1: State, st2: State, c1: Call, c2: Call, c3: Call)
    requires Defined(st0, c1.input) && ReadStep(st0, c1.input, c1.outLen) == Step(st1, Out([]))
    requires Defined(st1, c2.input) && ReadStep(st1, c2.input, c2.outLen) == Step(st2, Out([]))
    requires Defined(st2, c3.input) && ReadStep(st2, c3.input, c3.outLen).outcome.Out?
    ensures Safe(st0, [c1, c2, c3])
    ensures Deliveries(st0, [c1, c2, c3]).out == ReadStep(st2, c3.input, c3.outLen).outcome.bytes
  {
    hide ReadStep, Defined, Deliveries, Safe;
    var calls := [c1, c2, c3];
    assert calls[1..] == [c2, c3] && [c2, c3][1..] == [c3] && [c3][1..] == [];
    NoMoreCalls(ReadStep(st2, c3.input, c3.outLen).state);
    OneDelivery(st2, [c3]);
    OneDelivery(st1, [c2, c3]);
    OneDelivery(st0, calls);
  }

  function EarlyTail(): seq<byte> { [LF, 65, CR, LF, 48, CR, LF, CR, LF] }

  function EarlyCalls(): seq<Call> { [Call([49, CR], 9), Call([], 9), Call(EarlyTail(), 9)] }

  lemma NoMoreCalls(st: State)
    ensures Safe(st, []) && Deliveries(st, []).out == []
  {
  }

  lemma OneDelivery(st: State, calls: seq<Call>)
    requires calls != [] && Defined(st, calls[0].input)
    requires ReadStep(st, calls[0].input, calls[0].outLen).outcome.Out?
    requires Safe(ReadStep(st, calls[0].input, calls[0].outLen).state, calls[1..])
    ensures Safe(st, calls)
    ensures var r := ReadStep(st, calls[0].input, calls[0].outLen);
            Deliveries(st, calls).out == r.outcome.bytes + Deliveries(r.state, calls[1..]).out
  {
    hide ReadStep, Defined;
  }

  lemma FirstCall()
    ensures Defined(State([], 0), [49, CR])
    ensures ReadStep(State([], 0), [49, CR], 9) == Step(State([49, CR], 0), Out([]))
  {
    assert [] + [49, CR] == [49, CR];
  }

  lemma SecondCall()
    ensures Defined(State([49, CR], 0), [])
    ensures ReadStep(State([49, CR], 0), [], 9) == Step(State([], 1), Out([]))
  {
    var b: seq<byte> := [49, CR];
    assert b + [] == b;
    assert b[0] == 49 && b[1] == CR;
    FindIs(b, 0, CR, 1);
    assert HeaderEnd(b, true) == 1;
    assert b[0..1] == [49];
    assert HexSize([49]) == 1;
    assert b[2..] == [];
  }

  lemma ThirdCall(tail: seq<byte>)
    requires |tail| > 1 && tail[0] == LF
    ensures Defined(State([], 1), tail)
    ensures ReadStep(State([], 1), tail, 9) == Step(State(tail[1..], 0), Out([LF]))
  {
    assert [] + tail == tail;
    assert tail[..1] == [LF];
  }
}
