/**
 Percent-quoting for HTTP and the yEnc encoding: for which lists of characters, and for which quote character, decoding
 gives back what was encoded.
 */
module Quoting {
  import opened Bytes

  type text = s: seq<byte> | 0 !in s witness []

  const PLUS: byte := 43
  const PERCENT: byte := 37
  const SPACE: byte := 32

  // ---------------------------------------------------------------- percent quoting

  function HexDigit(d: nat): (b: byte)
    requires d < 16
    ensures b < 128 && b != 0
  {
    if d < 10 then 48 + d else 55 + d
  }

  /** "%%%02X" of a plain char: a byte above 127 is negative, and its 32 bits are printed. */
  function Percent(b: byte): text {
    if b < 128 then [PERCENT, HexDigit(b / 16), HexDigit(b % 16)]
    else [PERCENT, 70, 70, 70, 70, 70, 70, HexDigit(b / 16), HexDigit(b % 16)]
  }

  function QuotedByte(b: byte, list: text): (r: text)
    requires b != 0
  {
    if b in list then Percent(b) else [b]
  }

  function Quote(s: text, list: text): text {
    if s == [] then []
    else Quote(s[..|s| - 1], list) + QuotedByte(s[|s| - 1], list)
  }

  predicate IsHex(b: byte) { 48 <= b <= 57 || 65 <= b <= 70 || 97 <= b <= 102 }

  function HexValue(b: byte): nat
    requires IsHex(b)
  {
    if b <= 57 then b - 48 else if b <= 70 then b - 55 else b - 87
  }

  function HexRun(s: seq<byte>, v: nat): nat {
    if s != [] && IsHex(s[0]) then HexRun(s[1..], 16 * v + HexValue(s[0])) else v
  }

  predicate IsBlank(b: byte) { b == 32 || 9 <= b <= 13 }

  /** strtol(token, NULL, 16) on at most two characters; "0x" alone is read as zero. */
  function Strtol16(s: seq<byte>): int {
    if s == [] then 0
    else if IsBlank(s[0]) then Strtol16(s[1..])
    else if s[0] == 45 then 0 - HexRun(s[1..], 0)
    else if s[0] == 43 then HexRun(s[1..], 0)
    else HexRun(s, 0)
  }

  function AtMost(s: seq<byte>, n: nat): seq<byte> { if |s| <= n then s else s[..n] }

  /** What one character of quoted text, and what belongs to it, stands for, and how many characters that is. */
  function Unit(s: text): (r: (byte, nat))
    requires s != []
    ensures 1 <= r.1 <= 3
  {
    if s[0] == PLUS then (SPACE, 1)
    else if s[0] == PERCENT then (U8(Strtol16(AtMost(s[1..], 2))), 3)
    else (s[0], 1)
  }

  function UnQuote(s: text): seq<byte>
    decreases |s|
  {
    if s == [] then []
    else
      var u := Unit(s);
      [u.0] + if u.1 <= |s| then UnQuote(s[u.1..]) else []
  }

  /** HTTPQuoteChars */
  method HTTPQuoteChars(s: text, list: text) returns (r: text)
    ensures r == Quote(s, list)
  {
    r := [];
    assert s[..|s|] == s;
    for i := 0 to |s|
      invariant r == Quote(s[..i], list)
    {
      assert s[..i + 1][..i] == s[..i];
      if s[i] in list {
        r := r + Percent(s[i]);
      } else {
        r := r + [s[i]];
      }
    }
  }

  /** What is left to unquote at a position, nothing behind the end. */
  function UnQuoteFrom(s: text, at: nat): seq<byte> {
    if at <= |s| then UnQuote(s[at..]) else []
  }

  lemma UnQuoteStep(s: text, at: nat)
    requires at < |s|
    ensures s[at] == PLUS ==> UnQuoteFrom(s, at) == [SPACE] + UnQuoteFrom(s, at + 1)
    ensures s[at] == PERCENT ==> UnQuoteFrom(s, at) == [U8(Strtol16(AtMost(s[at + 1..], 2)))] + UnQuoteFrom(s, at + 3)
    ensures s[at] != PLUS && s[at] != PERCENT ==> UnQuoteFrom(s, at) == [s[at]] + UnQuoteFrom(s, at + 1)
  {
    hide Strtol16, AtMost;
    var u := Unit(s[at..]);
    assert s[at..][1..] == s[at + 1..];
    assert at + u.1 <= |s| ==> s[at..][u.1..] == s[at + u.1..];
  }

  /** HTTPUnQuote */
  method HTTPUnQuote(s: text) returns (r: seq<byte>)
    ensures r == UnQuote(s)
  {
    hide UnQuote, UnQuoteFrom, Strtol16, AtMost;
    r := [];
    var ptr := 0;
    UnQuoteEnds(s);
    while ptr < |s|
      invariant 0 <= ptr && r + UnQuoteFrom(s, ptr) == UnQuote(s)
    {
      UnQuoteStep(s, ptr);
      if s[ptr] == PLUS {
        r := r + [SPACE];
      } else if s[ptr] == PERCENT {
        ptr := ptr + 1;
        var token := AtMost(s[ptr..], 2);
        ptr := ptr + 1;
        r := r + [U8(Strtol16(token))];
      } else {
        r := r + [s[ptr]];
      }
      ptr := ptr + 1;
    }
  }

  lemma UnQuoteEnds(s: text)
    ensures [] + UnQuoteFrom(s, 0) == UnQuote(s)
    ensures forall at :: at >= |s| ==> UnQuoteFrom(s, at) == []
  {
    assert s[0..] == s && s[|s|..] == [];
  }

  // ---------------------------------------------------------------- the round trip

  predicate Reversible(list: text) {
    PERCENT in list && PLUS in list && forall i :: 0 <= i < |list| ==> list[i] < 128
  }

  lemma NoQuote(list: text)
    ensures Quote([], list) == []
  {
  }

  lemma QuoteLast(s: text, list: text)
    requires s != []
    ensures Quote(s, list) == Quote(s[..|s| - 1], list) + QuotedByte(s[|s| - 1], list)
  {
    hide QuotedByte;
  }

  lemma {:induction false} QuoteJoin(s: text, t: text, list: text)
    ensures Quote(s + t, list) == Quote(s, list) + Quote(t, list)
  {
    hide QuotedByte, Quote;
    NoQuote(list);
    if t == [] {
      assert s + t == s;
    } else {
      var u := t[..|t| - 1];
      assert (s + t)[..|s + t| - 1] == s + u;
      QuoteLast(t, list);
      QuoteLast(s + t, list);
      QuoteJoin(s, u, list);
      var x, y, z := Quote(s, list), Quote(u, list), QuotedByte(t[|t| - 1], list);
      assert (x + y) + z == x + (y + z);
    }
  }

  lemma QuoteFirst(s: text, list: text)
    requires s != []
    ensures Quote(s, list) == QuotedByte(s[0], list) + Quote(s[1..], list)
  {
    hide QuotedByte;
    assert s == [s[0]] + s[1..];
    QuoteJoin([s[0]], s[1..], list);
    assert [s[0]][..0] == [];
  }

  lemma HexOfDigit(d: nat)
    requires d < 16
    ensures IsHex(HexDigit(d)) && HexValue(HexDigit(d)) == d
  {
  }

  lemma HexRunTwo(x: byte, y: byte)
    requires IsHex(x) && IsHex(y)
    ensures HexRun([x, y], 0) == 16 * HexValue(x) + HexValue(y)
  {
    assert [x, y][1..] == [y] && [y][1..] == [];
    assert HexRun([y], HexValue(x)) == HexRun([], 16 * HexValue(x) + HexValue(y));
  }

  lemma TwoDigits(b: byte)
    ensures Strtol16([HexDigit(b / 16), HexDigit(b % 16)]) == b
  {
    HexOfDigit(b / 16);
    HexOfDigit(b % 16);
    HexRunTwo(HexDigit(b / 16), HexDigit(b % 16));
    var s := [HexDigit(b / 16), HexDigit(b % 16)];
    assert !IsBlank(s[0]) && s[0] != 45 && s[0] != 43;
  }

  /** What is quoted is read back, whatever follows. */
  lemma UnitOfQuoted(b: byte, list: text, rest: text)
    requires b != 0 && (b in list ==> b < 128) && (b == PERCENT || b == PLUS ==> b in list)
    ensures Unit(QuotedByte(b, list) + rest) == (b, |QuotedByte(b, list)|)
  {
    if b in list {
      var s := Percent(b) + rest;
      assert AtMost(s[1..], 2) == [HexDigit(b / 16), HexDigit(b % 16)];
      TwoDigits(b);
    }
  }

  lemma {:induction false} UnQuoteOfQuote(s: text, list: text)
    requires Reversible(list)
    ensures UnQuote(Quote(s, list)) == s
  {
    if s != [] {
      QuoteFirst(s, list);
      hide Quote, Unit, QuotedByte;
      var q, rest := QuotedByte(s[0], list), Quote(s[1..], list);
      UnitOfQuoted(s[0], list, rest);
      assert (q + rest)[|q|..] == rest;
      UnQuoteOfQuote(s[1..], list);
    }
  }

  ghost predicate AlwaysRestores(list: text) {
    forall s: text :: UnQuote(Quote(s, list)) == s
  }

  lemma QuoteOfOne(b: byte, list: text)
    requires b != 0
    ensures Quote([b], list) == QuotedByte(b, list)
  {
    assert [b][..0] == [];
  }

  lemma PlainByte(b: byte)
    requires b != 0
    ensures UnQuote([b]) == if b == PLUS then [SPACE] else if b == PERCENT then [0] else [b]
  {
    assert [b][1..] == [];
  }

  /** A byte above 127 in the list comes back as more than one. */
  lemma HighByteGrows(b: byte)
    requires b >= 128
    ensures |UnQuote(Percent(b))| > 1
  {
    var s := Percent(b);
    assert |UnQuote(s)| == 1 + |UnQuote(s[3..])|;
    assert s[3..] != [];
  }

  /**
   Unquoting restores every text exactly when the list has both the percent sign and the plus, and no byte above 127,
   which would be printed with the sign of its char.
   */
  lemma RestoresIffReversible(list: text)
    ensures AlwaysRestores(list) <==> Reversible(list)
  {
    hide Quote, UnQuote, Percent;
    if Reversible(list) {
      forall s: text
        ensures UnQuote(Quote(s, list)) == s
      {
        UnQuoteOfQuote(s, list);
      }
    } else {
      var b: byte := if PERCENT !in list then PERCENT else if PLUS !in list then PLUS else HighByte(list);
      QuoteOfOne(b, list);
      PlainByte(PERCENT);
      PlainByte(PLUS);
      if b >= 128 {
        HighByteGrows(b);
      }
      var s: text := [b];
      assert UnQuote(Quote(s, list)) != s;
    }
  }

  /** The first byte above 127, if there is one. */
  function HighByte(list: text): (b: byte)
    ensures if forall i :: 0 <= i < |list| ==> list[i] < 128 then b == 128 else b in list && b >= 128
  {
    if list == [] then 128
    else if list[0] >= 128 then list[0]
    else HighByte(list[1..])
  }

  /** The characters that HTTPQuote quotes: blanks and line ends, and "#%()[]{}<>?&!,+':;/@ */
  function HTTPList(): text {
    [32, 9, 13, 10, 34, 35, 37, 40, 41, 91, 93, 123, 125, 60, 62, 63, 38, 33, 44, 43, 39, 58, 59, 47, 64]
  }

  lemma HTTPQuoteRestores(s: text)
    ensures UnQuote(Quote(s, HTTPList())) == s
  {
    var l := HTTPList();
    assert l[6] == PERCENT && l[19] == PLUS;
    UnQuoteOfQuote(s, l);
  }

  /** What HTTPQuote produces has none of those characters left but the percent signs it put there. */
  lemma {:induction false} QuotedIsFree(s: text, list: text, b: byte)
    requires b in list && b != PERCENT && !IsHex(b) && Reversible(list)
    ensures b !in Quote(s, list)
  {
    if s != [] {
      QuotedIsFree(s[..|s| - 1], list, b);
      var c := s[|s| - 1];
      HexOfDigit(c / 16);
      HexOfDigit(c % 16);
    }
  }

  // ---------------------------------------------------------------- what it looks like

  /** A listed character becomes a percent sign and two capital hexadecimal digits, or eight if it is above 127. */
  lemma QuotedForm(b: byte, list: text)
    requires b != 0
    ensures QuotedByte(b, list) ==
            if b !in list then [b]
            else [37] + (if b < 128 then [] else [70, 70, 70, 70, 70, 70])
                 + ["0123456789ABCDEF"[b / 16] as int, "0123456789ABCDEF"[b % 16] as int]
  {
    CapitalDigit(b / 16);
    CapitalDigit(b % 16);
  }

  lemma CapitalDigit(d: nat)
    requires d < 16
    ensures HexDigit(d) as int == "0123456789ABCDEF"[d] as int
  {
  }

  /** Which characters HTTPQuote quotes. */
  lemma HTTPListIs(b: byte)
    ensures b in HTTPList() <==>
            || 9 <= b <= 10 || b == 13 || b == 32                          // tab, line ends, blank
            || b == '"' as int || b == '#' as int || b == '%' as int || b == '(' as int || b == ')' as int
            || b == '[' as int || b == ']' as int || b == '{' as int || b == '}' as int || b == '<' as int
            || b == '>' as int || b == '?' as int || b == '&' as int || b == '!' as int || b == ',' as int
            || b == '+' as int || b == '\'' as int || b == ':' as int || b == ';' as int || b == '/' as int
            || b == '@' as int
  {
  }

  /** A hexadecimal digit, in either case. */
  predicate DigitOf(b: byte, d: nat) {
    d < 16 && (b == "0123456789abcdef"[d] as int || b == "0123456789ABCDEF"[d] as int)
  }

  lemma DigitIs(b: byte, d: nat)
    requires DigitOf(b, d)
    ensures d < 16 && IsHex(b) && HexValue(b) == d
  {
  }

  lemma EscapeStep(x: byte, y: byte, rest: text)
    requires x != 0 && y != 0
    ensures UnQuote([37, x, y] + rest) == [U8(Strtol16([x, y]))] + UnQuote(rest)
  {
    hide Strtol16;
    var s: text := [37, x, y] + rest;
    assert AtMost(s[1..], 2) == [x, y] && s[3..] == rest;
  }

  /** A plus sign is a blank, and all other characters but the percent sign are themselves. */
  lemma PlainForm(c: byte, rest: text)
    requires c != 0 && c != 37
    ensures UnQuote([c] + rest) == [if c == 43 then 32 else c] + UnQuote(rest)
  {
    assert ([c] + rest)[1..] == rest;
  }

  /** The number that two digits, in either case, make. */
  lemma TwoDigitsRead(x: byte, y: byte, d: nat, e: nat)
    requires DigitOf(x, d) && DigitOf(y, e)
    ensures d < 16 && e < 16 && x != 0 && y != 0 && Strtol16([x, y]) == 16 * d + e
  {
    DigitIs(x, d);
    DigitIs(y, e);
    hide Strtol16, DigitOf, HexValue;
    PairOfDigits(x, y);
  }

  /** A percent sign and two digits, in either case, are the byte of that number. */
  lemma EscapedForm(x: byte, y: byte, d: nat, e: nat, b: byte, rest: text)
    requires x != 0 && y != 0 && DigitOf(x, d) && DigitOf(y, e) && b == 16 * d + e
    ensures UnQuote([37, x, y] + rest) == [b] + UnQuote(rest)
  {
    TwoDigitsRead(x, y, d, e);
    hide UnQuote, Strtol16, DigitOf;
    EscapeStep(x, y, rest);
  }

  lemma PairOfDigits(x: byte, y: byte)
    requires IsHex(x)
    ensures Strtol16([x, y]) == if IsHex(y) then 16 * HexValue(x) + HexValue(y) else HexValue(x)
    ensures Strtol16([x]) == HexValue(x)
  {
    assert [x, y][1..] == [y] && [y][1..] == [] && [x][1..] == [];
    assert HexRun([], HexValue(x)) == HexValue(x);
    assert HexRun([y], HexValue(x)) == if IsHex(y) then HexRun([], 16 * HexValue(x) + HexValue(y)) else HexValue(x);
    assert HexRun([x, y], 0) == HexRun([y], HexValue(x));
  }

  lemma OneDigit(x: byte, y: byte)
    requires !IsHex(x)
    ensures Strtol16([x, y]) ==
            if IsHex(y) && (IsBlank(x) || x == 43) then HexValue(y)
            else if IsHex(y) && x == 45 then 0 - HexValue(y) else 0
    ensures Strtol16([x]) == 0
  {
    assert [x, y][1..] == [y] && [y][1..] == [] && [x][1..] == [];
    assert HexRun([], 0) == 0;
    assert HexRun([y], 0) == if IsHex(y) then HexRun([], HexValue(y)) else 0;
    assert HexRun([x, y], 0) == 0;
    assert Strtol16([]) == 0;
    assert Strtol16([y]) == if IsHex(y) then HexValue(y) else 0;
  }

  /** A percent sign that two digits do not follow: what strtol makes of the two characters behind it, sign and all. */
  lemma Malformed(x: byte, y: byte, e: nat, rest: text)
    requires x != 0 && y != 0
    ensures !IsHex(x) && DigitOf(y, e) ==>
              UnQuote([37, x, y] + rest) ==
              [if x == 32 || 9 <= x <= 13 || x == 43 then e else if x == 45 then (256 - e) % 256 else 0] + UnQuote(rest)
    ensures DigitOf(x, e) && !IsHex(y) ==> UnQuote([37, x, y] + rest) == [e] + UnQuote(rest)
    ensures !IsHex(x) && !IsHex(y) ==> UnQuote([37, x, y] + rest) == [0] + UnQuote(rest)
    ensures DigitOf(x, e) ==> UnQuote([37, x]) == [e]
    ensures !IsHex(x) ==> UnQuote([37, x]) == [0]
    ensures UnQuote([37]) == [0]
  {
    hide UnQuote, Strtol16, DigitOf, HexValue, HexRun;
    if DigitOf(x, e) { DigitIs(x, e); }
    if DigitOf(y, e) { DigitIs(y, e); }
    if IsHex(x) { PairOfDigits(x, y); } else { OneDigit(x, y); }
    EscapeStep(x, y, rest);
    ShortEscapes(x);
  }

  lemma ShortEscapes(x: byte)
    requires x != 0
    ensures UnQuote([37, x]) == [U8(Strtol16([x]))] && UnQuote([37]) == [0]
  {
    assert [37, x][1..] == [x] && [37][1..] == [];
    assert Strtol16([]) == 0;
  }

  // ---------------------------------------------------------------- yEnc

  /** AddCharToStr: a zero byte adds nothing. */
  function AddCharToStr(t: text, c: byte): text { if c == 0 then t else t + [c] }

  function Moved(b: byte, d: int): byte {
    var v: int := b;
    U8(v + d)
  }

  function Shifted(b: byte): byte { Moved(b, 42) }

  predicate Escaped(e: byte, q: byte) { e == 0 || e == 13 || e == 10 || e == q }

  /** What one byte adds to the text. */
  function YencOf(b: byte, q: byte): text {
    var e := Shifted(b);
    if Escaped(e, q) then AddCharToStr(AddCharToStr([], q), Moved(e, 62)) else [e]
  }

  function Yenc(bytes: seq<byte>, q: byte): text {
    if bytes == [] then [] else Yenc(bytes[..|bytes| - 1], q) + YencOf(bytes[|bytes| - 1], q)
  }

  function UnYenc(t: text, q: byte): seq<byte>
    decreases |t|
  {
    if t == [] then []
    else if t[0] != q then [Moved(t[0], -42)] + UnYenc(t[1..], q)
    else if |t| == 1 then []
    else [Moved(t[1], -62 - 42)] + UnYenc(t[2..], q)
  }

  lemma NoYenc(q: byte)
    ensures Yenc([], q) == []
  {
  }

  lemma YencNext(input: seq<byte>, i: nat, q: byte)
    requires i < |input|
    ensures Yenc(input[..i + 1], q) == Yenc(input[..i], q) + YencOf(input[i], q)
  {
    assert input[..i + 1][..i] == input[..i];
  }

  /** EncodeYenc */
  method EncodeYenc(input: seq<byte>, q: byte) returns (r: text)
    ensures r == Yenc(input, q)
  {
    hide Moved, Yenc;
    r := [];
    NoYenc(q);
    assert input[..|input|] == input;
    for i := 0 to |input|
      invariant r == Yenc(input[..i], q)
    {
      YencNext(input, i, q);
      var e := Moved(input[i], 42);
      if e == 0 || e == 13 || e == 10 || e == q {
        r := AddCharToStr(r, q);
        r := AddCharToStr(r, Moved(e, 62));
      } else {
        r := AddCharToStr(r, e);
      }
    }
  }

  lemma UnYencStep(t: text, i: nat, q: byte)
    requires i < |t|
    ensures UnYenc(t[i..], q) == if t[i] != q then [Moved(t[i], -42)] + UnYenc(t[i + 1..], q)
                                 else if i + 1 == |t| then [] else [Moved(t[i + 1], -104)] + UnYenc(t[i + 2..], q)
  {
    hide Moved;
    assert t[i..][1..] == t[i + 1..] && (i + 2 <= |t| ==> t[i..][2..] == t[i + 2..]);
  }

  /** DecodeYenc */
  method DecodeYenc(t: text, q: byte) returns (r: seq<byte>)
    ensures r == UnYenc(t, q)
  {
    hide UnYenc;
    r := [];
    NothingToUnYenc(q);
    assert t[0..] == t && t[|t|..] == [];
    var i := 0;
    while i < |t|
      invariant 0 <= i <= |t| && r + UnYenc(t[i..], q) == UnYenc(t, q)
    {
      UnYencStep(t, i, q);
      var e: int;
      if t[i] == q {
        i := i + 1;
        if i == |t| {
          break;
        }
        e := t[i];
        e := e - 62;
      } else {
        e := t[i];
      }
      r := r + [U8(e - 42)];
      i := i + 1;
    }
  }

  lemma NothingToUnYenc(q: byte)
    ensures UnYenc([], q) == []
  {
  }

  lemma YencLast(bytes: seq<byte>, q: byte)
    requires bytes != []
    ensures Yenc(bytes, q) == Yenc(bytes[..|bytes| - 1], q) + YencOf(bytes[|bytes| - 1], q)
  {
    hide YencOf;
  }

  lemma {:induction false} YencFirst(bytes: seq<byte>, q: byte)
    requires bytes != []
    ensures Yenc(bytes, q) == YencOf(bytes[0], q) + Yenc(bytes[1..], q)
  {
    hide YencOf, Yenc;
    var init, last := bytes[..|bytes| - 1], bytes[|bytes| - 1];
    YencLast(bytes, q);
    NoYenc(q);
    if init == [] {
      assert bytes[1..] == [];
    } else {
      YencFirst(init, q);
      YencLast(bytes[1..], q);
      assert bytes[1..][..|bytes[1..]| - 1] == init[1..];
      var x, y, z := YencOf(bytes[0], q), Yenc(init[1..], q), YencOf(last, q);
      assert (x + y) + z == x + (y + z);
    }
  }

  /** One byte of yEnc: 42 more, and if that is a zero, a line end or the quote character, quoted and 62 more. */
  lemma YencForm(b: byte, q: byte)
    requires q != 0
    ensures var e: int := (b + 42) % 256;
            YencOf(b, q) == if e == 0 || e == 13 || e == 10 || e == q
                            then [q] + (if (e + 62) % 256 == 0 then [] else [(e + 62) % 256]) else [e]
  {
  }

  predicate YencReversible(q: byte) { q != 0 && q != 194 }

  lemma MovedTwice(b: byte, d: int, e: int)
    ensures Moved(Moved(b, d), e) == Moved(b, d + e)
  {
  }

  lemma MovedBack(b: byte)
    ensures Moved(Shifted(b), -42) == b && Moved(Moved(Shifted(b), 62), -104) == b
  {
    MovedTwice(b, 42, -42);
    MovedTwice(Shifted(b), 62, -104);
    assert Moved(b, 0) == b;
    assert 62 - 104 == -42 && 42 - 42 == 0;
    hide Moved;
  }

  /** The text of one byte: an escape of two characters, or one that is not the quote character. */
  lemma YencShape(b: byte, q: byte)
    requires YencReversible(q)
    ensures var e := Shifted(b);
            if Escaped(e, q) then YencOf(b, q) == [q, Moved(e, 62)] && Moved(e, 62) != 0
            else YencOf(b, q) == [e] && e != 0 && e != q
  {
  }

  /** One byte's text is read back, whatever follows. */
  lemma YencUnit(b: byte, q: byte, rest: text)
    requires YencReversible(q)
    ensures UnYenc(YencOf(b, q) + rest, q) == [b] + UnYenc(rest, q)
  {
    MovedBack(b);
    YencShape(b, q);
    hide Moved, Shifted, Escaped, YencOf, UnYenc;
    var s := YencOf(b, q) + rest;
    UnYencStep(s, 0, q);
    assert s[0..] == s;
    if Escaped(Shifted(b), q) {
      assert s[2..] == rest;
    } else {
      assert s[1..] == rest;
    }
  }

  lemma {:induction false} UnYencOfYenc(bytes: seq<byte>, q: byte)
    requires YencReversible(q)
    ensures UnYenc(Yenc(bytes, q), q) == bytes
  {
    hide YencOf, UnYenc;
    NothingToUnYenc(q);
    if bytes != [] {
      YencFirst(bytes, q);
      UnYencOfYenc(bytes[1..], q);
      YencUnit(bytes[0], q, Yenc(bytes[1..], q));
    }
  }

  /** Decoding restores every sequence of bytes exactly when the quote character is neither 0 nor 194. */
  lemma YencRestoresIff(q: byte)
    ensures (forall bytes :: UnYenc(Yenc(bytes, q), q) == bytes) <==> YencReversible(q)
  {
    if YencReversible(q) {
      forall bytes
        ensures UnYenc(Yenc(bytes, q), q) == bytes
      {
        UnYencOfYenc(bytes, q);
      }
    } else {
      var b: byte := if q == 0 then 214 else 152;
      assert [b][..0] == [];
      assert Yenc([b], q) == YencOf(b, q);
      assert YencOf(b, q) == if q == 0 then [62] else [194];
      assert UnYenc([62], 0) == [20] + UnYenc([], 0);
      assert UnYenc(Yenc([b], q), q) != [b];
    }
  }

  predicate OneLine(t: text) { 13 !in t && 10 !in t }

  lemma {:induction false} YencStaysOnLine(bytes: seq<byte>, q: byte)
    requires q != 10 && q != 13 && q != 204 && q != 207
    ensures OneLine(Yenc(bytes, q))
  {
    if bytes != [] {
      YencStaysOnLine(bytes[..|bytes| - 1], q);
      YencOfOneLine(bytes[|bytes| - 1], q);
      hide YencOf;
    }
  }

  lemma YencOfOneLine(b: byte, q: byte)
    requires q != 10 && q != 13 && q != 204 && q != 207
    ensures OneLine(YencOf(b, q))
  {
  }

  /** The encoded text has no line ends, for any input, exactly when the quote character is none and makes none. */
  lemma YencOneLineIff(q: byte)
    ensures (forall bytes :: OneLine(Yenc(bytes, q))) <==> q != 10 && q != 13 && q != 204 && q != 207
  {
    if q != 10 && q != 13 && q != 204 && q != 207 {
      forall bytes
        ensures OneLine(Yenc(bytes, q))
      {
        YencStaysOnLine(bytes, q);
      }
    } else {
      var b: byte := if q == 204 then 162 else if q == 207 then 165 else 214;
      assert [b][..0] == [];
      assert Yenc([b], q) == YencOf(b, q);
      assert Shifted(b) == if q == 204 then 204 else if q == 207 then 207 else 0;
      assert !OneLine(Yenc([b], q));
    }
  }
}
