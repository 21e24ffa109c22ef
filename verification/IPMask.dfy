/**
 Matching IPv4 addresses by prefix. The mask is built by shifting in host order and then put into network order, in
 which addresses are held; two addresses match under it exactly when their first bits agree. A 32-bit word is the
 sequence of its bits, the most significant first.
 */
module IPMask {

  type uint32 = w: seq<bool> | |w| == 32 witness seq(32, i => false)

  function Zero(): uint32 { seq(32, i => false) }

  /** w << 1 */
  function ShiftLeft(w: uint32): uint32 { w[1..] + [false] }

  /** w | 1 */
  function OrOne(w: uint32): uint32 { w[..31] + [true] }

  /** a & b */
  function And(a: uint32, b: uint32): uint32 { seq(32, i requires 0 <= i < 32 => a[i] && b[i]) }

  /** htonl on a little-endian machine: the bytes the other way round. */
  function Htonl(w: uint32): uint32 { w[24..] + w[16..24] + w[8..16] + w[..8] }

  /** The word with n ones in front. */
  function Prefix(n: nat): uint32 { seq(32, i => i < n) }

  function Clamp(len: int): nat { if len < 0 then 0 else if len > 32 then 32 else len }

  /** Addresses are in network order; their first n bits, as they are written and counted, agree. */
  predicate SamePrefix(a: uint32, b: uint32, n: nat)
    requires n <= 32
  {
    Htonl(a)[..n] == Htonl(b)[..n]
  }

  /** IP4GenMask */
  method GenMask(len: int) returns (mask: uint32)
    ensures mask == Htonl(Prefix(Clamp(len)))
  {
    mask := Zero();
    var i := 0;
    while i < len
      invariant 0 <= i && (len >= 0 ==> i <= len) && (len < 0 ==> i == 0)
      invariant forall b :: 0 <= b < 32 ==> mask[b] == (b >= 32 - i)
    {
      mask := ShiftLeft(mask);
      mask := OrOne(mask);
      i := i + 1;
    }
    while i < 32
      invariant i <= 32 || i == len
      invariant Clamp(len) <= i
      invariant forall b :: 0 <= b < 32 ==> mask[b] == (i > 32 || 32 - i <= b < 32 - i + Clamp(len))
    {
      mask := ShiftLeft(mask);
      i := i + 1;
    }
    assert mask == Prefix(Clamp(len));
    mask := Htonl(mask);
  }

  /** IP4MaskIP */
  method MaskIP(ip: uint32, len: int) returns (r: uint32)
    ensures r == And(ip, Htonl(Prefix(Clamp(len))))
  {
    var mask := GenMask(len);
    r := And(ip, mask);
  }

  /** IP4MatchesMask */
  method MatchesMask(ip: uint32, compare: uint32, len: int) returns (r: bool)
    ensures r <==> SamePrefix(ip, compare, if len < 0 then 0 else if len > 32 then 32 else len)
  {
    var maskedIP := MaskIP(ip, len);
    var maskedCompare := MaskIP(compare, len);
    MaskedAlike(ip, compare, Clamp(len));
    r := maskedIP == maskedCompare;
  }

  lemma HtonlTwice(w: uint32)
    ensures Htonl(Htonl(w)) == w
  {
    var v := Htonl(w);
    assert v[24..] == w[..8] && v[16..24] == w[8..16] && v[8..16] == w[16..24] && v[..8] == w[24..];
  }

  lemma HtonlOfAnd(a: uint32, b: uint32)
    ensures Htonl(And(a, b)) == And(Htonl(a), Htonl(b))
  {
  }

  /** Masking in network order keeps the first n bits in host order, and no others. */
  lemma MaskedIs(ip: uint32, n: nat)
    requires n <= 32
    ensures Htonl(And(ip, Htonl(Prefix(n)))) == And(Htonl(ip), Prefix(n))
  {
    HtonlOfAnd(ip, Htonl(Prefix(n)));
    HtonlTwice(Prefix(n));
  }

  lemma PrefixKeeps(a: uint32, b: uint32, n: nat)
    requires n <= 32
    ensures And(a, Prefix(n)) == And(b, Prefix(n)) <==> a[..n] == b[..n]
  {
    var x, y := And(a, Prefix(n)), And(b, Prefix(n));
    if x == y {
      assert forall i :: 0 <= i < n ==> x[i] == a[i] && y[i] == b[i];
    }
    if a[..n] == b[..n] {
      assert forall i :: 0 <= i < n ==> a[i] == a[..n][i] && b[i] == b[..n][i];
    }
  }

  lemma MaskedAlike(a: uint32, b: uint32, n: nat)
    requires n <= 32
    ensures And(a, Htonl(Prefix(n))) == And(b, Htonl(Prefix(n))) <==> SamePrefix(a, b, n)
  {
    MaskedIs(a, n);
    MaskedIs(b, n);
    PrefixKeeps(Htonl(a), Htonl(b), n);
    HtonlTwice(And(a, Htonl(Prefix(n))));
    HtonlTwice(And(b, Htonl(Prefix(n))));
  }

  /**
   Addresses as they are written. Each is four bytes in the order of memory, and the word that a little-endian machine
   has of them starts with the last: two of them match at a length when the written addresses agree that far.
   */
  lemma WrittenAddresses(a: seq<seq<bool>>, b: seq<seq<bool>>, n: nat)
    requires |a| == |b| == 4 && n <= 32 && forall i :: 0 <= i < 4 ==> |a[i]| == |b[i]| == 8
    ensures SamePrefix(a[3] + a[2] + a[1] + a[0], b[3] + b[2] + b[1] + b[0], n)
        <==> (a[0] + a[1] + a[2] + a[3])[..n] == (b[0] + b[1] + b[2] + b[3])[..n]
  {
    BytesTurned(a[0], a[1], a[2], a[3]);
    BytesTurned(b[0], b[1], b[2], b[3]);
  }

  lemma BytesTurned(b0: seq<bool>, b1: seq<bool>, b2: seq<bool>, b3: seq<bool>)
    requires |b0| == |b1| == |b2| == |b3| == 8
    ensures Htonl(b3 + b2 + b1 + b0) == b0 + b1 + b2 + b3
  {
    var w := b3 + b2 + b1 + b0;
    assert w[24..] == b0 && w[16..24] == b1 && w[8..16] == b2 && w[..8] == b3;
  }

  /** A match at one length is a match at every shorter one. */
  lemma ShorterMatches(a: uint32, b: uint32, n: nat, shorter: nat)
    requires shorter <= n <= 32 && SamePrefix(a, b, n)
    ensures SamePrefix(a, b, shorter)
  {
    assert Htonl(a)[..shorter] == Htonl(a)[..n][..shorter];
    assert Htonl(b)[..shorter] == Htonl(b)[..n][..shorter];
  }

  /** Matching at one length is an equivalence; at full length only equal addresses match, at length zero all do. */
  lemma MatchingIsEquivalence(a: uint32, b: uint32, c: uint32, n: nat)
    requires n <= 32
    ensures SamePrefix(a, a, n) && (SamePrefix(a, b, n) ==> SamePrefix(b, a, n))
    ensures SamePrefix(a, b, n) && SamePrefix(b, c, n) ==> SamePrefix(a, c, n)
    ensures (SamePrefix(a, b, 32) <==> a == b) && SamePrefix(a, b, 0)
  {
    HtonlTwice(a);
    HtonlTwice(b);
    assert Htonl(a)[..32] == Htonl(a) && Htonl(b)[..32] == Htonl(b);
  }
}
