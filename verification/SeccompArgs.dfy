/**
 Argument checks travel from the rule parser to the code emitter as text: "0=2 2b73 ".
 This module prints them, reads them back the way the emitter does, and shows that the two agree,
 both in what is read and in the number of blank-separated words that sizes the jumps.
 */
module SeccompArgs {
  import opened SeccompRules
  import opened Text

  /** The checks that the parser builds: an argument number below six and a value that fits an int. */
  predicate Printable(c: Check) {
    c.pos < 6 && match c
                 case Bit(_, mask) => INT_MIN <= mask <= INT_MAX
                 case Eq(_, value) => INT_MIN <= value <= INT_MAX
  }

  predicate AllPrintable(cs: seq<Check>) {
    forall i :: 0 <= i < |cs| ==> Printable(cs[i])
  }

  /** The text that one SeccompAddCheck appends, up to the blank. */
  function CheckText(c: Check): string {
    match c
    case Bit(pos, mask) => FormatInt(pos) + ("b" + FormatInt(mask))
    case Eq(pos, value) => FormatInt(pos) + ("=" + FormatInt(value))
  }

  function ArgsText(cs: seq<Check>): string {
    if cs == [] then "" else CheckText(cs[0]) + (" " + ArgsText(cs[1..]))
  }

  /** Adding a check appends its text to what is there. */
  lemma {:induction false} ArgsTextAppend(cs: seq<Check>, c: Check)
    ensures ArgsText(cs + [c]) == ArgsText(cs) + CheckText(c) + " "
  {
    hide CheckText;
    if cs == [] {
      assert ArgsText(cs + [c]) == CheckText(c) + (" " + ArgsText([]));
    } else {
      ArgsTextAppend(cs[1..], c);
      assert (cs + [c])[1..] == cs[1..] + [c];
      assert ArgsText(cs + [c]) == CheckText(cs[0]) + (" " + (ArgsText(cs[1..]) + CheckText(c) + " "));
    }
  }

  // ---------------------------------------------------------------- counting words

  predicate Blank(c: char) {
    c == ' ' || c == '\t' || c == '\n' || c == '\r'
  }

  /** Length of the word that s starts with: up to a blank that no backslash quotes. */
  function WordEnd(s: string): (n: nat)
    ensures n <= |s|
  {
    if s == "" || Blank(s[0]) then 0
    else if s[0] == '\\' && |s| > 1 then 2 + WordEnd(s[2..])
    else 1 + WordEnd(s[1..])
  }

  /** GetToken with the separator pattern for a run of white space, and no flags. */
  function NextWord(s: string): (t: Token)
    ensures t.Token? ==> |t.rest| < |s|
  {
    if s == "" then NoToken
    else
      var n := WordEnd(s);
      if n == |s| then Token(s, "") else Token(s[..n], SkipSpace(s[n + 1..]))
  }

  function Words(s: string): seq<string>
    decreases |s|
  {
    match NextWord(s)
    case NoToken => []
    case Token(t, rest) => [t] + Words(rest)
  }

  predicate Solid(s: string) {
    forall i :: 0 <= i < |s| ==> !IsSpace(s[i]) && s[i] != '\\'
  }

  lemma {:induction false} WordEndOfSolid(t: string, c: char, rest: string)
    requires Solid(t) && (c == ' ' || c == '\t' || c == '\n' || c == '\r')
    ensures WordEnd(t + ([c] + rest)) == |t|
  {
    if t == "" {
      assert t + ([c] + rest) == [c] + rest;
    } else {
      assert (t + ([c] + rest))[1..] == t[1..] + ([c] + rest);
      WordEndOfSolid(t[1..], c, rest);
    }
  }

  /** A word ends at a blank, a tab or a line end, and the white space behind that is skipped. */
  lemma NextWordEnds(t: string, c: char, blanks: string, rest: string)
    requires Solid(t) && (c == ' ' || c == '\t' || c == '\n' || c == '\r')
    requires forall i :: 0 <= i < |blanks| ==> blanks[i] in " \t\n\r\U{000B}\U{000C}"
    requires rest == "" || rest[0] !in " \t\n\r\U{000B}\U{000C}"
    ensures NextWord(t + ([c] + (blanks + rest))) == Token(t, rest)
  {
    WordEndOfSolid(t, c, blanks + rest);
    var s := t + ([c] + (blanks + rest));
    assert s[..|t|] == t && s[|t| + 1..] == blanks + rest;
    SkipBlanks(blanks, rest);
  }

  lemma NextWordOfSolid(t: string, rest: string)
    requires Solid(t) && (rest == "" || !IsSpace(rest[0]))
    ensures NextWord(t + (" " + rest)) == Token(t, rest)
  {
    NextWordEnds(t, ' ', "", rest);
    assert "" + rest == rest;
  }

  lemma FormatIntSolid(v: int)
    ensures Solid(FormatInt(v)) && FormatInt(v) != "" && !IsSpace(FormatInt(v)[0])
    ensures IsDigit(FormatInt(v)[|FormatInt(v)| - 1])
  {
    DigitsAreDigits(if v < 0 then -v else v);
  }

  lemma CheckTextSolid(c: Check)
    ensures Solid(CheckText(c)) && CheckText(c) != "" && !IsSpace(CheckText(c)[0])
  {
    FormatIntSolid(c.pos);
    FormatIntSolid(if c.Bit? then c.mask else c.value);
  }

  lemma {:induction false} WordsOfArgs(cs: seq<Check>)
    ensures |Words(ArgsText(cs))| == |cs|
    ensures ArgsText(cs) == "" || !IsSpace(ArgsText(cs)[0])
  {
    if cs != [] {
      WordsOfArgs(cs[1..]);
      CheckTextSolid(cs[0]);
      NextWordOfSolid(CheckText(cs[0]), ArgsText(cs[1..]));
    }
  }

  // ---------------------------------------------------------------- reading checks back

  datatype ArgType = BadType | BitSet | NotBit | Less | Greater | Equal | NotEqual

  function TypeOf(c: char): ArgType {
    if c == 'b' then BitSet
    else if c == 'n' then NotBit
    else if c == '<' then Less
    else if c == '>' then Greater
    else if c == '=' then Equal
    else if c == '!' then NotEqual
    else BadType
  }

  datatype Arg = NoArg | Arg(pos: int, typ: ArgType, value: int, rest: string)

  /** GetArg: position, type letter, value; NoArg where the source returns NULL. */
  function GetArg(args: string): (a: Arg)
    ensures a.Arg? ==> |a.rest| < |args|
  {
    var p := SkipSpace(args);
    if p == "" then NoArg
    else
      var pos := Strtol(p);
      if pos.rest == "" || |pos.rest| == 1 then NoArg
      else
        var value := Strtol(pos.rest[1..]);
        Arg(pos.value, TypeOf(pos.rest[0]), value.value, value.rest)
  }

  function ArgOf(c: Check, rest: string): Arg {
    match c
    case Bit(pos, mask) => Arg(pos, BitSet, mask, rest)
    case Eq(pos, value) => Arg(pos, Equal, value, rest)
  }

  lemma GetArgOfText(pos: nat, letter: char, value: int, rest: string)
    requires letter == 'b' || letter == '='
    requires pos < 6 && INT_MIN <= value <= INT_MAX && rest != "" && rest[0] == ' '
    ensures GetArg(FormatInt(pos) + ([letter] + FormatInt(value)) + rest) == Arg(pos, TypeOf(letter), value, rest)
  {
    var tail := FormatInt(value) + rest;
    var s := FormatInt(pos) + ([letter] + FormatInt(value)) + rest;
    assert s == FormatInt(pos) + ([letter] + tail);
    FormatIntSolid(pos);
    SkipSpaceNone(s);
    StrtolOfFormat(pos, [letter] + tail);
    FormatIntSolid(value);
    assert ([letter] + tail)[1..] == tail;
    StrtolOfFormat(value, rest);
  }

  lemma GetArgOfCheck(c: Check, rest: string)
    requires Printable(c) && rest != "" && rest[0] == ' '
    ensures GetArg(CheckText(c) + rest) == ArgOf(c, rest)
  {
    match c
    case Bit(pos, mask) => GetArgOfText(pos, 'b', mask, rest);
    case Eq(pos, value) => GetArgOfText(pos, '=', value, rest);
  }

  lemma GetArgSkipsBlank(s: string)
    ensures GetArg(" " + s) == GetArg(s)
  {
    assert (" " + s)[1..] == s;
  }
}
