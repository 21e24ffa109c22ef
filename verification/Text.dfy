/**
 The character-string helpers that the modelled code is written in terms of:
 printf's "%d", strtol, the one-character form of GetToken, and the
 separator-joined lists that the tokenizer takes apart again.
 */
module Text {

  const INT_MIN: int := -0x8000_0000
  const INT_MAX: int := 0x7FFF_FFFF
  const LONG_MIN: int := -0x8000_0000_0000_0000
  const LONG_MAX: int := 0x7FFF_FFFF_FFFF_FFFF

  predicate IsSpace(c: char) {
    c == ' ' || c == '\t' || c == '\n' || c == '\r' || c == '\U{000B}' || c == '\U{000C}'
  }

  predicate IsDigit(c: char) { '0' <= c <= '9' }

  function SkipSpace(s: string): (r: string)
    ensures |r| <= |s|
    ensures r == "" || !IsSpace(r[0])
  {
    if s != "" && IsSpace(s[0]) then SkipSpace(s[1..]) else s
  }

  function StripTrailingWhitespace(s: string): string {
    if s != "" && IsSpace(s[|s| - 1]) then StripTrailingWhitespace(s[..|s| - 1]) else s
  }

  /** Equality up to ASCII case, as strcasecmp decides it. */
  function Lower(c: char): char {
    if 'A' <= c <= 'Z' then (c as int + 32) as char else c
  }

  predicate EqNoCase(a: string, b: string) {
    |a| == |b| && forall i :: 0 <= i < |a| ==> Lower(a[i]) == Lower(b[i])
  }

  /** Two characters are the same, or one is the capital letter of the other. */
  lemma CaseOfLetters(a: string, b: string)
    ensures EqNoCase(a, b) <==>
            && |a| == |b|
            && forall i :: 0 <= i < |a| ==>
                 || a[i] == b[i]
                 || ('A' <= a[i] <= 'Z' && b[i] as int == a[i] as int + 32)
                 || ('A' <= b[i] <= 'Z' && a[i] as int == b[i] as int + 32)
  {
    if EqNoCase(a, b) {
      assert forall i :: 0 <= i < |a| ==> Lower(a[i]) == Lower(b[i]);
    }
  }

  // ---------------------------------------------------------------- decimal

  function DigitChar(d: nat): (c: char)
    requires d < 10
    ensures IsDigit(c)
  {
    (d + 48) as char
  }

  function Digits(n: nat): string {
    if n < 10 then [DigitChar(n)] else Digits(n / 10) + [DigitChar(n % 10)]
  }

  predicate AllDigits(s: string) {
    forall i :: 0 <= i < |s| ==> IsDigit(s[i])
  }

  lemma {:induction false} DigitsAreDigits(n: nat)
    ensures AllDigits(Digits(n)) && Digits(n) != ""
  {
    if n >= 10 {
      DigitsAreDigits(n / 10);
    }
  }

  /** printf("%d", v) */
  function FormatInt(v: int): string {
    if v < 0 then "-" + Digits(-v) else Digits(v)
  }

  /** The leading run of decimal digits, and what follows it. */
  function DigitRun(s: string): nat {
    if s != "" && IsDigit(s[0]) then 1 + DigitRun(s[1..]) else 0
  }

  function DigitValue(c: char): nat
    requires IsDigit(c)
  {
    c as int - 48
  }

  function DecimalValue(s: string): nat
    requires AllDigits(s)
  {
    if s == "" then 0 else 10 * DecimalValue(s[..|s| - 1]) + DigitValue(s[|s| - 1])
  }

  lemma DigitRunIsDigits(s: string)
    ensures DigitRun(s) <= |s|
    ensures AllDigits(s[..DigitRun(s)])
  {
    if s != "" && IsDigit(s[0]) {
      DigitRunIsDigits(s[1..]);
      assert s[..DigitRun(s)] == [s[0]] + s[1..][..DigitRun(s[1..])];
    }
  }

  function Clamp(v: int): int {
    if v < LONG_MIN then LONG_MIN else if v > LONG_MAX then LONG_MAX else v
  }

  /** Assigning a long to an int keeps the low 32 bits, read as two's complement. */
  function ToInt(v: int): (r: int)
    ensures INT_MIN <= r <= INT_MAX
    ensures INT_MIN <= v <= INT_MAX ==> r == v
  {
    (v + 0x8000_0000) % 0x1_0000_0000 - 0x8000_0000
  }

  datatype Number = Number(value: int, rest: string)

  function Signed(v: int, negative: bool): int {
    if negative then -v else v
  }

  /** The number read from q, behind an optional sign; from says where reading started. */
  function ReadNumber(q: string, negative: bool, from: string): (r: Number)
    requires |q| <= |from|
    ensures |r.rest| <= |from|
    ensures INT_MIN <= r.value <= INT_MAX
  {
    var n := DigitRun(q);
    DigitRunIsDigits(q);
    if n == 0 then Number(0, from)
    else
      Number(ToInt(Clamp(Signed(DecimalValue(q[..n]), negative))), q[n..])
  }

  /** int value = strtol(s, &rest, 10): blanks, a sign and digits; with no digits nothing is consumed. */
  function Strtol(s: string): (r: Number)
    ensures |r.rest| <= |s|
    ensures INT_MIN <= r.value <= INT_MAX
  {
    var p := SkipSpace(s);
    if p != "" && p[0] == '-' then ReadNumber(p[1..], true, s)
    else if p != "" && p[0] == '+' then ReadNumber(p[1..], false, s)
    else ReadNumber(p, false, s)
  }

  lemma {:induction false} DecimalValueOfDigits(n: nat)
    ensures AllDigits(Digits(n)) && DecimalValue(Digits(n)) == n
  {
    DigitsAreDigits(n);
    if n >= 10 {
      DecimalValueOfDigits(n / 10);
      var s := Digits(n);
      assert s[..|s| - 1] == Digits(n / 10);
    }
  }

  lemma {:induction false} DigitRunStops(ds: string, rest: string)
    requires AllDigits(ds)
    requires rest == "" || !IsDigit(rest[0])
    ensures DigitRun(ds + rest) == |ds|
  {
    if ds == "" {
      assert ds + rest == rest;
    } else {
      assert (ds + rest)[1..] == ds[1..] + rest;
      DigitRunStops(ds[1..], rest);
    }
  }

  lemma ReadDigits(n: nat, negative: bool, rest: string, from: string)
    requires rest == "" || !IsDigit(rest[0])
    requires |Digits(n) + rest| <= |from|
    ensures ReadNumber(Digits(n) + rest, negative, from) == Number(ToInt(Clamp(Signed(n, negative))), rest)
  {
    DecimalValueOfDigits(n);
    DigitRunStops(Digits(n), rest);
    DigitsAreDigits(n);
    var q := Digits(n) + rest;
    assert q[..|Digits(n)|] == Digits(n) && q[|Digits(n)|..] == rest;
  }

  lemma SkipSpaceNone(s: string)
    requires s == "" || !IsSpace(s[0])
    ensures SkipSpace(s) == s
  {
  }

  lemma ReadSigned(s: string, q: string)
    requires s == "-" + q
    ensures Strtol(s) == ReadNumber(q, true, s)
  {
    SkipSpaceNone(s);
    assert s[1..] == q;
  }

  lemma ReadUnsigned(s: string)
    requires s != "" && IsDigit(s[0])
    ensures Strtol(s) == ReadNumber(s, false, s)
  {
    SkipSpaceNone(s);
  }

  /** strtol undoes "%d" for every int, whatever non-digit text follows. */
  lemma StrtolOfFormat(v: int, rest: string)
    requires INT_MIN <= v <= INT_MAX
    requires rest == "" || !IsDigit(rest[0])
    ensures Strtol(FormatInt(v) + rest) == Number(v, rest)
  {
    hide Strtol, Digits, SkipSpace, ReadNumber;
    var s := FormatInt(v) + rest;
    if v < 0 {
      ReadDigits(-v, true, rest, s);
      assert s == "-" + (Digits(-v) + rest);
      ReadSigned(s, Digits(-v) + rest);
    } else {
      ReadDigits(v, false, rest, s);
      DigitsAreDigits(v);
      ReadUnsigned(s);
    }
  }

  /** A number too large for an int loses its high bits; one too large for a long has become the largest long first. */
  lemma StrtolOfLarge(n: nat, rest: string)
    requires rest == "" || !IsDigit(rest[0])
    ensures Strtol(FormatInt(n) + rest).rest == rest
    ensures Strtol(FormatInt(n) + rest).value ==
            if n > 0x7FFF_FFFF_FFFF_FFFF then -1
            else if n % 0x1_0000_0000 < 0x8000_0000 then n % 0x1_0000_0000
            else n % 0x1_0000_0000 - 0x1_0000_0000
  {
    hide Strtol, Digits, SkipSpace, ReadNumber;
    var s := FormatInt(n) + rest;
    ReadDigits(n, false, rest, s);
    DigitsAreDigits(n);
    ReadUnsigned(s);
  }

  /** White space and a plus sign in front of a number count for nothing. */
  lemma StrtolSkips(blanks: string, n: nat, rest: string)
    requires forall i :: 0 <= i < |blanks| ==> blanks[i] in " \t\n\r\U{000B}\U{000C}"
    requires rest == "" || !IsDigit(rest[0])
    ensures Strtol(blanks + (FormatInt(n) + rest)) == Strtol(FormatInt(n) + rest)
    ensures Strtol(blanks + ("+" + (FormatInt(n) + rest))) == Strtol(FormatInt(n) + rest)
  {
    hide Digits, ReadNumber;
    var s := FormatInt(n) + rest;
    DigitsAreDigits(n);
    SkipBlanks(blanks, s);
    SkipBlanks(blanks, "+" + s);
    SkipSpaceNone(s);
    ReadDigits(n, false, rest, s);
    ReadDigits(n, false, rest, blanks + s);
    ReadDigits(n, false, rest, blanks + ("+" + s));
    assert ("+" + s)[1..] == s;
  }

  /** White space is these six characters, and in front of a text all of it is skipped. */
  lemma {:induction false} SkipBlanks(blanks: string, s: string)
    requires forall i :: 0 <= i < |blanks| ==> blanks[i] in " \t\n\r\U{000B}\U{000C}"
    requires s == "" || s[0] !in " \t\n\r\U{000B}\U{000C}"
    ensures SkipSpace(blanks + s) == s
  {
    if blanks == "" {
      assert blanks + s == s;
    } else {
      assert (blanks + s)[1..] == blanks[1..] + s;
      SkipBlanks(blanks[1..], s);
    }
  }

  /** And behind a text all of it is taken off. */
  lemma {:induction false} StripBlanks(s: string, blanks: string)
    requires forall i :: 0 <= i < |blanks| ==> blanks[i] in " \t\n\r\U{000B}\U{000C}"
    requires s == "" || s[|s| - 1] !in " \t\n\r\U{000B}\U{000C}"
    ensures StripTrailingWhitespace(s + blanks) == s
  {
    if blanks == "" {
      assert s + blanks == s;
    } else {
      var t := s + blanks;
      assert t[..|t| - 1] == s + blanks[..|blanks| - 1] && t[|t| - 1] == blanks[|blanks| - 1];
      StripBlanks(s, blanks[..|blanks| - 1]);
    }
  }

  /** What a number looks like: its digits from the last to the first, and a minus sign. */
  lemma DecimalForm(v: int)
    ensures v < 0 ==> FormatInt(v) == "-" + FormatInt(-v)
    ensures 0 <= v < 10 ==> FormatInt(v) == ["0123456789"[v]]
    ensures v >= 10 ==> FormatInt(v) == FormatInt(v / 10) + ["0123456789"[v % 10]]
  {
    DigitsInOrder(v % 10);
    hide DigitChar;
  }

  lemma DigitsInOrder(d: nat)
    requires d < 10
    ensures DigitChar(d) == "0123456789"[d]
  {
  }

  /** Different numbers print differently. */
  lemma FormatInjective(a: nat, b: nat)
    requires Digits(a) == Digits(b)
    ensures a == b
  {
    DecimalValueOfDigits(a);
    DecimalValueOfDigits(b);
  }

  // ------------------------------------------------------------ one-character tokens

  /** Text in which the tokenizer has nothing to unquote: no quotation marks and no backslashes. */
  predicate Unquoted(s: string) {
    '"' !in s && '\'' !in s && '\\' !in s
  }

  /** Index of the first c in s, or |s|. */
  function IndexOf(s: string, c: char): (i: nat)
    ensures i <= |s|
  {
    if s == "" || s[0] == c then 0 else 1 + IndexOf(s[1..], c)
  }

  lemma {:induction false} IndexOfIsFirst(s: string, c: char)
    ensures c !in s[..IndexOf(s, c)]
    ensures IndexOf(s, c) < |s| ==> s[IndexOf(s, c)] == c
    ensures IndexOf(s, c) == |s| <==> c !in s
  {
    if s != "" && s[0] != c {
      IndexOfIsFirst(s[1..], c);
      var i := IndexOf(s, c);
      assert s[..i] == [s[0]] + s[1..][..i - 1];
      assert s == [s[0]] + s[1..];
    }
  }

  datatype Token = NoToken | Token(text: string, rest: string)

  /** GetToken with a one-character separator and no flags. */
  function GetToken(s: string, c: char): (t: Token)
    ensures s == "" <==> t.NoToken?
    ensures t.Token? ==> |t.rest| < |s|
  {
    if s == "" then NoToken
    else
      var i := IndexOf(s, c);
      if i == |s| then Token(s, "") else Token(s[..i], s[i + 1..])
  }

  /** Every token that repeated GetToken calls deliver. */
  function Tokens(s: string, c: char): seq<string>
    decreases |s|
  {
    match GetToken(s, c)
    case NoToken => []
    case Token(t, rest) => [t] + Tokens(rest, c)
  }

  /** t stands in s at i, between separators or the ends of s. */
  predicate StandsAt(s: string, c: char, t: string, i: nat) {
    && i + |t| <= |s| && s[i..i + |t|] == t
    && (i == 0 || s[i - 1] == c)
    && (i + |t| == |s| || s[i + |t|] == c)
  }

  predicate Stands(s: string, c: char, t: string) {
    c !in t && exists i :: 0 <= i <= |s| && StandsAt(s, c, t, i)
  }

  /** A text that is not empty is a token exactly when it has no separator in it and stands between two. */
  lemma {:induction false} TokensStand(s: string, c: char, t: string)
    requires t != ""
    ensures t in Tokens(s, c) <==> Stands(s, c, t)
    decreases |s|
  {
    hide IndexOf;
    if s != "" {
      IndexOfIsFirst(s, c);
      var n := IndexOf(s, c);
      if n == |s| {
        WholeToken(s, c, t);
      } else {
        var rest := s[n + 1..];
        TokensStand(rest, c, t);
        UnfoldTokens(s, c);
        FirstStands(s, c, t, n);
      }
    }
  }

  lemma WholeToken(s: string, c: char, t: string)
    requires t != "" && c !in s
    ensures Tokens(s, c) == if s == "" then [] else [s]
    ensures Stands(s, c, t) <==> t == s
  {
    IndexOfIsFirst(s, c);
    forall i | 0 <= i <= |s| && StandsAt(s, c, t, i)
      ensures t == s
    {
      assert i == 0 && |t| == |s|;
    }
    assert s != "" ==> StandsAt(s, c, s, 0);
  }

  /** What stands in a text is its first token, or stands behind that. */
  lemma FirstStands(s: string, c: char, t: string, n: nat)
    requires t != "" && n < |s| && s[n] == c && c !in s[..n]
    ensures Stands(s, c, t) <==> t == s[..n] || Stands(s[n + 1..], c, t)
  {
    var rest := s[n + 1..];
    forall i | 0 <= i <= |s| && c !in t && StandsAt(s, c, t, i)
      ensures t == s[..n] || (n < i && StandsAt(rest, c, t, i - n - 1))
    {
      assert forall k :: i <= k < i + |t| ==> s[k] == t[k - i];
      assert forall k :: 0 <= k < n ==> s[k] == s[..n][k];
      assert n < i ==> rest[i - n - 1..i - n - 1 + |t|] == t;
    }
    assert c !in s[..n] && StandsAt(s, c, s[..n], 0);
    forall i | 0 <= i <= |rest| && StandsAt(rest, c, t, i)
      ensures StandsAt(s, c, t, i + n + 1)
    {
      assert s[i + n + 1..i + n + 1 + |t|] == rest[i..i + |t|];
    }
  }

  /** Items each followed by the separator. */
  function Terminated(items: seq<string>, c: char): string {
    if items == [] then "" else items[0] + [c] + Terminated(items[1..], c)
  }

  /** Items with the separator between them. */
  function Join(items: seq<string>, c: char): string {
    if items == [] then ""
    else if |items| == 1 then items[0]
    else items[0] + [c] + Join(items[1..], c)
  }

  predicate Clean(items: seq<string>, c: char) {
    forall i :: 0 <= i < |items| ==> items[i] != "" && c !in items[i]
  }

  lemma {:induction false} IndexOfExtends(s: string, c: char, u: string)
    ensures IndexOf(s + u, c) == if IndexOf(s, c) < |s| then IndexOf(s, c) else |s| + IndexOf(u, c)
  {
    if s == "" {
      assert s + u == u;
    } else if s[0] != c {
      assert (s + u)[1..] == s[1..] + u;
      IndexOfExtends(s[1..], c, u);
    }
  }

  /** The first token of a longer text, when the separator is there already. */
  lemma FirstToken(s: string, c: char, u: string)
    requires IndexOf(s, c) < |s|
    ensures var i := IndexOf(s, c);
            Tokens(s + u, c) == [s[..i]] + Tokens(s[i + 1..] + u, c)
  {
    var i := IndexOf(s, c);
    IndexOfExtends(s, c, u);
    assert (s + u)[..i] == s[..i];
    assert (s + u)[i + 1..] == s[i + 1..] + u;
  }

  lemma NoTokens(c: char)
    ensures Tokens("", c) == []
  {
  }

  lemma UnfoldTokens(s: string, c: char)
    requires IndexOf(s, c) < |s|
    ensures var i := IndexOf(s, c);
            Tokens(s, c) == [s[..i]] + Tokens(s[i + 1..], c)
  {
  }

  /** A list that ends in the separator is complete: what is appended makes tokens of its own. */
  lemma {:induction false} TokensConcat(s: string, c: char, u: string)
    requires s == "" || s[|s| - 1] == c
    ensures Tokens(s + u, c) == Tokens(s, c) + Tokens(u, c)
    decreases |s|
  {
    hide Tokens, IndexOf;
    if s == "" {
      assert s + u == u;
      assert Tokens(s, c) == [] by { NoTokens(c); }
    } else {
      IndexOfIsFirst(s, c);
      UnfoldTokens(s, c);
      FirstToken(s, c, u);
      TokensConcat(s[IndexOf(s, c) + 1..], c, u);
    }
  }

  lemma {:induction false} TokensAreFree(s: string, c: char)
    ensures forall t :: t in Tokens(s, c) ==> c !in t
    decreases |s|
  {
    if s != "" {
      var i := IndexOf(s, c);
      IndexOfIsFirst(s, c);
      if i < |s| {
        TokensAreFree(s[i + 1..], c);
      }
    }
  }

  lemma TokensOfOne(s: string, c: char)
    requires s != "" && c !in s
    ensures Tokens(s, c) == [s]
  {
    IndexOfIsFirst(s, c);
    assert Tokens("", c) == [];
  }

  lemma TokensOfTerminatedOne(t: string, c: char)
    requires c !in t
    ensures Tokens(t + [c], c) == [t]
  {
    IndexOfIsFirst(t, c);
    IndexOfExtends(t, c, [c]);
    var s := t + [c];
    assert s[..|t|] == t && s[|t| + 1..] == "";
    assert Tokens("", c) == [];
  }

  lemma {:induction false} TokensOfTerminated(items: seq<string>, c: char)
    requires forall i :: 0 <= i < |items| ==> c !in items[i]
    ensures Tokens(Terminated(items, c), c) == items
  {
    if items != [] {
      var s := items[0] + [c];
      TokensOfTerminatedOne(items[0], c);
      TokensConcat(s, c, Terminated(items[1..], c));
      TokensOfTerminated(items[1..], c);
    }
  }

  lemma {:induction false} TokensOfJoin(items: seq<string>, c: char)
    requires Clean(items, c)
    ensures Tokens(Join(items, c), c) == items
  {
    if |items| == 1 {
      TokensOfOne(items[0], c);
    } else if |items| > 1 {
      var s := items[0] + [c];
      TokensOfTerminatedOne(items[0], c);
      TokensConcat(s, c, Join(items[1..], c));
      TokensOfJoin(items[1..], c);
    }
  }

  /** A separator that closes an open list adds no token. */
  lemma {:induction false} TokensClose(s: string, c: char)
    requires s != "" && s[|s| - 1] != c
    ensures Tokens(s + [c], c) == Tokens(s, c)
    decreases |s|
  {
    var i := IndexOf(s, c);
    IndexOfIsFirst(s, c);
    if i == |s| {
      TokensOfOne(s, c);
      TokensOfTerminatedOne(s, c);
    } else {
      FirstToken(s, c, [c]);
      TokensClose(s[i + 1..], c);
    }
  }

  /** The tokens of a list once a separator follows it. */
  lemma TokensOfClosed(s: string, c: char)
    requires s != ""
    ensures Tokens(s + [c], c) == Tokens(s, c) + if s[|s| - 1] == c then [""] else []
  {
    hide *;
    if s[|s| - 1] == c {
      TokensConcat(s, c, [c]);
      TokensOfTerminatedOne("", c);
      assert "" + [c] == [c];
    } else {
      TokensClose(s, c);
    }
  }

  /** Appending "<c>item" to a non-empty list adds the token item, after an empty one if the list was closed. */
  lemma TokensAppend(s: string, c: char, item: string)
    requires s != "" && c !in item && item != ""
    ensures Tokens(s + [c] + item, c) == Tokens(s, c) + (if s[|s| - 1] == c then [""] else []) + [item]
  {
    hide *;
    TokensConcat(s + [c], c, item);
    TokensOfOne(item, c);
    TokensOfClosed(s, c);
  }
}
