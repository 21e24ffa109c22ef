/**
 The secure store: a growing memory block that holds length-prefixed records one behind the other. It is a faithful
 log of what was added; walking it meets the records in order, up to the first empty one.
 */
module SecureMem {
  import opened Bytes
  import opened Wrappers

  // ---------------------------------------------------------------- the layout

  /** A uint32_t in memory, least significant byte first. */
  function Word(n: word): (s: seq<byte>)
    ensures |s| == 4
  {
    [n % 256, n / 0x100 % 256, n / 0x1_0000 % 256, n / 0x100_0000 % 256]
  }

  function WordAt(s: seq<byte>, at: nat): word
    requires at + 4 <= |s|
  {
    var b0: int, b1: int, b2: int, b3: int := s[at], s[at + 1], s[at + 2], s[at + 3];
    b0 + 0x100 * b1 + 0x1_0000 * b2 + 0x100_0000 * b3
  }

  lemma WordReadsBack(n: word)
    ensures WordAt(Word(n), 0) == n
  {
    var a, b, c := n / 0x100, n / 0x1_0000, n / 0x100_0000;
    assert b == a / 0x100 && c == b / 0x100 && c < 0x100;
  }

  type record = s: seq<byte> | |s| < WORD

  function Framed(r: record): seq<byte> { Word(|r|) + r }

  function Encode(records: seq<record>): seq<byte> {
    if records == [] then [] else Encode(records[..|records| - 1]) + Framed(records[|records| - 1])
  }

  /** Where record k starts. */
  function Offset(records: seq<record>, k: nat): nat
    requires k <= |records|
  {
    |Encode(records[..k])|
  }

  lemma EncodeNext(records: seq<record>, r: record)
    ensures Encode(records + [r]) == Encode(records) + Framed(r)
  {
    assert (records + [r])[..|records|] == records;
  }

  /** Record k lies at its offset in the encoding of all. */
  lemma {:induction false} RecordAt(records: seq<record>, k: nat)
    requires k < |records|
    ensures Offset(records, k + 1) == Offset(records, k) + 4 + |records[k]| <= |Encode(records)|
    ensures Encode(records)[Offset(records, k)..Offset(records, k + 1)] == Framed(records[k])
  {
    var m := |records| - 1;
    var init := records[..m];
    if k < m {
      RecordAt(init, k);
      assert init[..k] == records[..k] && init[..k + 1] == records[..k + 1];
      assert Encode(records)[..|Encode(init)|] == Encode(init);
    } else {
      assert records[..m + 1] == records;
    }
  }

  lemma FrameParts(e: seq<byte>, at: nat, r: record)
    requires at + 4 + |r| <= |e| && e[at..at + 4 + |r|] == Framed(r)
    ensures e[at + 4..at + 4 + |r|] == r && WordAt(e, at) == |r|
  {
    WordReadsBack(|r|);
    var f := e[at..at + 4 + |r|];
    assert f[0] == e[at] && f[1] == e[at + 1] && f[2] == e[at + 2] && f[3] == e[at + 3];
    assert WordAt(f, 0) == WordAt(Word(|r|), 0);
    assert e[at + 4..at + 4 + |r|] == f[4..];
  }

  lemma HeaderAt(records: seq<record>, k: nat)
    requires k < |records|
    ensures var at := Offset(records, k);
            && at + 4 + |records[k]| == Offset(records, k + 1) <= |Encode(records)|
            && WordAt(Encode(records), at) == |records[k]|
            && Encode(records)[at + 4..at + 4 + |records[k]|] == records[k]
  {
    hide Framed, WordAt, Encode;
    RecordAt(records, k);
    FrameParts(Encode(records), Offset(records, k), records[k]);
  }

  // ---------------------------------------------------------------- the store

  method CopyIn(mem: array<byte>, at: nat, bytes: seq<byte>)
    requires at + |bytes| <= mem.Length
    modifies mem
    ensures mem[..] == old(mem[..at]) + bytes + old(mem[at + |bytes|..])
  {
    forall i | 0 <= i < |bytes| {
      mem[at + i] := bytes[i];
    }
  }

  /** SecureRealloc: whole pages, at least one byte more than asked for; the block only ever grows. */
  method SecureRealloc(oldMem: array?<byte>, oldSize: nat, newSize: nat, pageSize: nat)
    returns (mem: array?<byte>, size: nat)
    requires pageSize > 0 && (if oldMem == null then oldSize == 0 else oldMem.Length == oldSize)
    ensures mem != null && mem.Length == size && oldSize <= size && newSize < size
    ensures if oldMem == null then fresh(mem) else mem[..oldSize] == oldMem[..]
    ensures mem == oldMem || fresh(mem)
  {
    var memSize := (newSize / pageSize + 1) * pageSize;
    PagesCover(newSize, pageSize);
    if memSize < oldSize {
      return oldMem, oldSize;
    }
    var block := new byte[memSize];
    if oldMem != null {
      CopyIn(block, 0, oldMem[..]);
    }
    return block, memSize;
  }

  lemma PagesCover(n: nat, pageSize: nat)
    requires pageSize > 0
    ensures n < (n / pageSize + 1) * pageSize
  {
    assert n == n / pageSize * pageSize + n % pageSize;
  }

  /** The header of a record and, if it is there, the data behind it. */
  method WriteRecord(mem: array<byte>, used: nat, size: word, data: Option<record>) returns (at: nat)
    requires used + 4 + size <= mem.Length && (data.Some? ==> |data.value| == size)
    modifies mem
    ensures at == used + 4 && mem[..used] == old(mem[..used])
    ensures mem[used..at + size] == Word(size) + mem[at..at + size]
    ensures data.Some? ==> mem[at..at + size] == data.value
  {
    CopyIn(mem, used, Word(size));
    assert mem[..used] == old(mem[..used]) && mem[used..used + 4] == Word(size);
    at := used + 4;
    if data.Some? {
      label Header:
      CopyIn(mem, at, data.value);
      assert mem[..at] == old@Header(mem[..at]);
      assert mem[..used] == mem[..at][..used] && mem[used..at] == mem[..at][used..];
    }
    assert mem[used..at + size] == mem[used..at] + mem[at..at + size];
  }

  lemma FrameBehind(mem: seq<byte>, used: nat, size: word, before: seq<byte>) returns (r: record)
    requires used + 4 + size <= |mem| && mem[..used] == before
    requires mem[used..used + 4 + size] == Word(size) + mem[used + 4..used + 4 + size]
    ensures |r| == size && r == mem[used + 4..used + 4 + size]
    ensures mem[..used + 4 + size] == before + Framed(r)
  {
    hide Word;
    assert |mem[used + 4..used + 4 + size]| == size;
    r := mem[used + 4..used + 4 + size];
    assert mem[..used + 4 + size] == mem[..used] + mem[used..used + 4 + size];
  }

  class SecureStore {
    var Data: array?<byte>
    var Used: nat
    var Size: nat
    ghost var Records: seq<record>

    ghost predicate Valid()
      reads this, Data
    {
      && Used == |Encode(Records)| <= Size
      && (if Data == null then Size == 0 else Data.Length == Size && Data[..Used] == Encode(Records))
    }

    constructor ()
      ensures Valid() && Records == [] && Data == null
    {
      Data, Used, Size, Records := null, 0, 0, [];
    }

    /** SecureStoreAdd; without data the room for the record is made and its contents are left to the caller. */
    method Add(data: Option<record>, size: word, pageSize: nat) returns (at: nat)
      requires Valid() && pageSize > 0 && (data.Some? ==> |data.value| == size)
      modifies this, Data
      ensures Valid() && Data != null && (Data == old(Data) || fresh(Data))
      ensures |Records| == |old(Records)| + 1 && Records[..|old(Records)|] == old(Records)
      ensures |Records[|old(Records)|]| == size && (data.Some? ==> Records == old(Records) + [data.value])
      ensures Used == old(Used) + 4 + size && at == old(Used) + 4 && Size >= old(Size)
    {
      hide Encode, Word;
      var newSize := Used + size + 4;
      ghost var before := Encode(Records);
      Data, Size := SecureRealloc(Data, Size, newSize, pageSize);
      assert Data[..Used] == before;
      at := WriteRecord(Data, Used, size, data);
      Used := newSize;
      ghost var r := FrameBehind(Data[..], at - 4, size, before);
      EncodeNext(Records, r);
      Records := Records + [r];
      hide Framed;
    }

    /** Once the room of the last record has been written to, the log ends with what was written. */
    ghost method Rewritten(before: seq<record>, r: record)
      requires Data != null && Data.Length == Size && Used <= Size
      requires Data[..Used] == Encode(before) + Framed(r)
      modifies this`Records
      ensures Valid() && Records == before + [r]
    {
      EncodeNext(before, r);
      Records := before + [r];
    }

    /** Where a walk over the store stands: before the start, or at the start of record k. */
    ghost predicate StandsAt(ptr: Option<nat>, k: nat)
      reads this
    {
      k <= |Records| && if k == 0 && ptr == None then true else ptr == Some(Offset(Records, k))
    }

    /** SecureStoreGetNext: the length of the next record and a pointer to it, or nothing at the end. */
    method GetNext(ptr: Option<nat>, ghost k: nat) returns (len: nat, next: Option<nat>)
      requires Valid() && StandsAt(ptr, k)
      ensures Valid()
      ensures k < |Records| ==> len == |Records[k]| && next == Some(Offset(Records, k) + 4)
      ensures k == |Records| ==> len == 0 && next == None
    {
      hide Framed, WordAt;
      if k < |Records| {
        HeaderAt(Records, k);
      } else {
        assert Records[..k] == Records;
      }
      var p := if ptr == None then 0 else ptr.value;
      if Data != null && p < Used {
        assert Data[..Used] == Encode(Records);
        len := WordAt(Data[..Used], p);
        if Used > p + len {
          return len, Some(p + 4);
        }
      }
      return 0, None;
    }

    /** The bytes of record k, where SecureStoreGetNext points. */
    method Fetch(at: nat, len: nat, ghost k: nat) returns (bytes: seq<byte>)
      requires Valid() && k < |Records| && at == Offset(Records, k) + 4 && len == |Records[k]|
      ensures Valid() && bytes == Records[k] && StandsAt(Some(at + len), k + 1)
    {
      hide Encode;
      HeaderAt(Records, k);
      bytes := Data[at..at + len];
      assert bytes == Data[..Used][at..at + len];
    }

    /** The loop that callers of SecureStoreGetNext write. */
    method Walk() returns (seen: seq<seq<byte>>)
      requires Valid()
      ensures Valid() && seen == UpToEmpty(Records)
    {
      hide Encode, UpToEmpty, Offset;
      seen := [];
      ghost var k := 0;
      var len, ptr := GetNext(None, 0);
      EmptyEnds(Records, 0, []);
      while len > 0
        invariant Valid() && k <= |Records| && seen + UpToEmpty(Records[k..]) == UpToEmpty(Records)
        invariant if k < |Records| then len == |Records[k]| && ptr == Some(Offset(Records, k) + 4) else len == 0
        decreases |Records| - k
      {
        var bytes := Fetch(ptr.value, len, k);
        EmptyEnds(Records, k, seen);
        seen := seen + [bytes];
        k := k + 1;
        len, ptr := GetNext(Some(ptr.value + len), k);
      }
      EmptyEnds(Records, k, seen);
    }
  }

  /** The records in front of the first empty one, whose length looks like the end of the store. */
  function UpToEmpty(records: seq<record>): seq<seq<byte>> {
    if records == [] || records[0] == [] then [] else [records[0]] + UpToEmpty(records[1..])
  }

  lemma EmptyEnds(records: seq<record>, k: nat, seen: seq<seq<byte>>)
    requires k <= |records|
    ensures k == 0 ==> seen + UpToEmpty(records[k..]) == seen + UpToEmpty(records)
    ensures seen + UpToEmpty(records[k..]) == if k == |records| || records[k] == [] then seen
                                              else seen + [records[k]] + UpToEmpty(records[k + 1..])
  {
    assert k == 0 ==> records[k..] == records;
    if k < |records| {
      assert records[k..][1..] == records[k + 1..];
    }
  }

  /** A walk sees the whole log exactly when no record is empty. */
  lemma {:induction false} WalkIsWhole(records: seq<record>)
    ensures UpToEmpty(records) == records <==> [] !in records
  {
    if records != [] && records[0] != [] {
      WalkIsWhole(records[1..]);
      var walk := UpToEmpty(records);
      assert records == [records[0]] + records[1..];
      assert walk[1..] == UpToEmpty(records[1..]);
    }
  }
}
