/**
 Rotating a log file: the generations of the log move up by one, from the oldest down, and the log becomes the first.
 The file system is a map from paths to contents.
 */
module LogRotate {
  import opened Bytes
  import opened Text

  type Files = map<string, seq<byte>>

  /** The file at p in one file system is the file at q in another, if there is one. */
  predicate SameFile(a: Files, p: string, b: Files, q: string) {
    (p in a <==> q in b) && (p in a ==> a[p] == b[q])
  }

  /** "%s.%d" */
  function Generation(log: string, i: nat): string { log + "." + FormatInt(i) }

  /** The path of a generation: a dot and its number, digit by digit. */
  lemma GenerationForm(log: string, i: nat)
    ensures i < 10 ==> Generation(log, i) == log + "." + ["0123456789"[i]]
    ensures i >= 10 ==> Generation(log, i) == Generation(log, i / 10) + ["0123456789"[i % 10]]
  {
    DecimalForm(i);
    hide FormatInt;
  }

  lemma GenerationsDiffer(log: string, i: nat, j: nat)
    ensures Generation(log, i) == Generation(log, j) <==> i == j
    ensures Generation(log, i) != log
  {
    hide FormatInt;
    var a, b := log + "." + FormatInt(i), log + "." + FormatInt(j);
    assert a[|log| + 1..] == FormatInt(i) && b[|log| + 1..] == FormatInt(j);
    NumbersDiffer(i, j);
    assert |a| > |log|;
  }

  lemma NumbersDiffer(i: nat, j: nat)
    ensures FormatInt(i) == FormatInt(j) <==> i == j
  {
    if Digits(i) == Digits(j) {
      FormatInjective(i, j);
    }
  }

  class FileSystem {
    var files: Files

    constructor (fs: Files)
      ensures files == fs
    {
      files := fs;
    }

    method Unlink(p: string)
      modifies this
      ensures files == old(files) - {p}
    {
      files := files - {p};
    }

    /** rename: nothing happens when there is no such file. */
    method Rename(p: string, q: string)
      modifies this
      ensures files == if p in old(files) then (old(files) - {p})[q := old(files)[p]] else old(files)
    {
      if p in files {
        files := (files - {p})[q := files[p]];
      }
    }

    method Append(p: string, bytes: seq<byte>)
      requires p in files
      modifies this
      ensures files == old(files)[p := old(files)[p] + bytes]
    {
      files := files[p := files[p] + bytes];
    }

    /** Opening for appending, which makes an empty file where there is none. */
    method Open(p: string)
      modifies this
      ensures files == if p in old(files) then old(files) else old(files)[p := []]
    {
      if p !in files {
        files := files[p := []];
      }
    }
  }

  ghost predicate Among(p: string, log: string, low: nat, high: nat) {
    exists j :: low <= j <= high && p == Generation(log, j)
  }

  /**
   Generations above i hold what the one below held, generation i + 1 is free, and all other files are as they were.
   */
  ghost predicate MovedUp(now: Files, was: Files, log: string, i: nat, max: nat) {
    && i <= max
    && (forall j :: i + 2 <= j <= max ==> SameFile(now, Generation(log, j), was, Generation(log, j - 1)))
    && (i < max ==> Generation(log, i + 1) !in now)
    && (forall p :: !Among(p, log, i + 1, max) ==> SameFile(now, p, was, p))
  }

  /** What a rotation comes to. */
  ghost predicate Rotated(now: Files, was: Files, log: string, max: nat) {
    && (max > 0 ==> SameFile(now, Generation(log, 1), was, log))
    && (forall j :: 2 <= j <= max ==> SameFile(now, Generation(log, j), was, Generation(log, j - 1)))
    && (log in now && (max > 0 || log !in was ==> now[log] == []) && (max == 0 && log in was ==> now[log] == was[log]))
    && (forall p :: p != log && !Among(p, log, 1, max) ==> SameFile(now, p, was, p))
  }

  function Renamed(fs: Files, p: string, q: string): Files {
    if p in fs then (fs - {p})[q := fs[p]] else fs
  }

  lemma AllGenerationsDiffer(log: string)
    ensures forall i: nat, j: nat :: Generation(log, i) == Generation(log, j) ==> i == j
    ensures forall i: nat :: Generation(log, i) != log
  {
    forall i: nat, j: nat
      ensures Generation(log, i) == Generation(log, j) ==> i == j
    {
      GenerationsDiffer(log, i, j);
    }
    forall i: nat
      ensures Generation(log, i) != log
    {
      GenerationsDiffer(log, i, i);
    }
  }

  lemma NotStarted(fs: Files, log: string, max: nat)
    ensures MovedUp(fs, fs, log, max, max)
  {
  }

  lemma MoveUp(now: Files, was: Files, log: string, i: nat, max: nat)
    requires 1 <= i <= max && MovedUp(now, was, log, i, max)
    ensures MovedUp(if i == max then now - {Generation(log, i)}
                    else Renamed(now, Generation(log, i), Generation(log, i + 1)),
                    was, log, i - 1, max)
  {
    AllGenerationsDiffer(log);
    hide Generation;
    var g, h := Generation(log, i), Generation(log, i + 1);
    var after := if i == max then now - {g} else Renamed(now, g, h);
    assert SameFile(now, g, was, g);
    forall p | !Among(p, log, i, max)
      ensures SameFile(after, p, was, p)
    {
      assert p != g && (i < max ==> p != h);
      assert !Among(p, log, i + 1, max);
      assert SameFile(now, p, was, p);
      assert SameFile(after, p, now, p);
    }
    forall j | i + 1 <= j <= max
      ensures SameFile(after, Generation(log, j), was, Generation(log, j - 1))
    {
      assert j > i + 1 ==> SameFile(now, Generation(log, j), was, Generation(log, j - 1));
    }
  }

  lemma LastMove(now: Files, was: Files, log: string, max: nat)
    requires MovedUp(now, was, log, 0, max)
    ensures var moved := if max > 0 then Renamed(now, log, Generation(log, 1)) else now;
            Rotated(if log in moved then moved else moved[log := []], was, log, max)
  {
    AllGenerationsDiffer(log);
    hide Generation;
    var moved := if max > 0 then Renamed(now, log, Generation(log, 1)) else now;
    var after := if log in moved then moved else moved[log := []];
    assert !Among(log, log, 1, max);
    assert SameFile(now, log, was, log);
    forall p | p != log && !Among(p, log, 1, max)
      ensures SameFile(after, p, was, p)
    {
      assert SameFile(now, p, was, p);
      assert max > 0 ==> p != Generation(log, 1);
    }
    forall j | 2 <= j <= max
      ensures SameFile(after, Generation(log, j), was, Generation(log, j - 1))
    {
      assert SameFile(now, Generation(log, j), was, Generation(log, j - 1));
    }
  }

  /** The loop of LogFileInternalDoRotate, and the log opened again. */
  method Rotate(fs: FileSystem, log: string, maxRotate: int)
    modifies fs
    ensures Rotated(fs.files, old(fs.files), log, if maxRotate > 0 then maxRotate else 0)
  {
    hide Generation, MovedUp, Rotated;
    NotStarted(fs.files, log, if maxRotate > 0 then maxRotate else 0);
    ghost var was := fs.files;
    ghost var max := if maxRotate > 0 then maxRotate else 0;
    var prevPath: string := "";
    var i := maxRotate;
    while i > 0
      invariant if maxRotate > 0 then 0 <= i <= maxRotate else i == maxRotate
      invariant MovedUp(fs.files, was, log, if i > 0 then i else 0, max)
      invariant 0 <= i < maxRotate ==> prevPath == Generation(log, i + 1)
    {
      var path := Generation(log, i);
      MoveUp(fs.files, was, log, i, max);
      if i == maxRotate {
        fs.Unlink(path);
      } else {
        fs.Rename(path, prevPath);
      }
      prevPath := path;
      i := i - 1;
    }
    LastMove(fs.files, was, log, max);
    if maxRotate > 0 {
      fs.Rename(log, prevPath);
    }
    fs.Open(log);
  }

  /** The generations hold the logs of the past, the newest first, as far as there are generations for them. */
  ghost predicate Archive(fs: Files, log: string, max: nat, past: seq<seq<byte>>) {
    forall k :: 1 <= k <= max ==>
      if k <= |past| then Generation(log, k) in fs && fs[Generation(log, k)] == past[|past| - k]
      else Generation(log, k) !in fs
  }

  /** One rotation adds the log to the past, and the oldest generation goes. */
  lemma ArchiveKeepsLast(now: Files, was: Files, log: string, max: nat, past: seq<seq<byte>>)
    requires Rotated(now, was, log, max) && log in was && Archive(was, log, max, past)
    ensures Archive(now, log, max, past + [was[log]])
  {
    hide Generation;
    var next := past + [was[log]];
    forall k | 1 <= k <= max
      ensures if k <= |next| then Generation(log, k) in now && now[Generation(log, k)] == next[|next| - k]
              else Generation(log, k) !in now
    {
      if k > 1 {
        assert SameFile(now, Generation(log, k), was, Generation(log, k - 1));
      }
    }
  }

  /** What is appended to the log changes no generation. */
  lemma ArchiveStays(fs: Files, log: string, max: nat, past: seq<seq<byte>>, bytes: seq<byte>)
    requires Archive(fs, log, max, past)
    ensures Archive(fs[log := bytes], log, max, past)
  {
    AllGenerationsDiffer(log);
    hide Generation;
  }

  /** Everything in a list of logs or entries, one after the other. */
  function Joined(parts: seq<seq<byte>>): seq<byte> {
    if parts == [] then [] else Joined(parts[..|parts| - 1]) + parts[|parts| - 1]
  }

  lemma JoinedNext(parts: seq<seq<byte>>, p: seq<byte>)
    ensures Joined(parts + [p]) == Joined(parts) + p
  {
    assert (parts + [p])[..|parts|] == parts;
  }

  lemma JoinedNothing()
    ensures Joined([]) == []
  {
  }

  lemma Behind(a: seq<byte>, b: seq<byte>, c: seq<byte>, d: seq<byte>, e: seq<byte>)
    requires a + b == c + d
    ensures a + (b + e) == c + (d + e)
  {
    assert a + (b + e) == a + b + e && c + (d + e) == c + d + e;
  }

  /** Moving the log into the past loses nothing. */
  lemma MovedToPast(before: seq<seq<byte>>, after: seq<seq<byte>>, log: seq<byte>, now: seq<byte>)
    requires (after == before + [log] && now == []) || (after == before && now == log)
    ensures Joined(after) + now == Joined(before) + log
  {
    JoinedNext(before, log);
  }

  class LogFile {
    const Path: string
    var MaxSize: int
    var MaxRotate: int
    var Hardened: bool
    var Owned: bool      // this process is the one that owns the file

    constructor (path: string, maxSize: int, maxRotate: int, hardened: bool, owned: bool)
      ensures Path == path && MaxSize == maxSize && MaxRotate == maxRotate && Hardened == hardened && Owned == owned
    {
      Path, MaxSize, MaxRotate, Hardened, Owned := path, maxSize, maxRotate, hardened, owned;
    }

    predicate IsFile() { Path != "SYSLOG" && Path != "STDOUT" && Path != "STDERR" }

    /** LogFileInternalDoRotate, for a log that exists and that nobody else touches meanwhile. */
    method DoRotate(fs: FileSystem)
      requires Path in fs.files
      modifies fs
      ensures if !Hardened && Path != "SYSLOG" && Path != "STDOUT" && Path != "STDERR" && Owned
                 && 0 < MaxSize < |old(fs.files)[Path]|
              then Rotated(fs.files, old(fs.files), Path, if MaxRotate > 0 then MaxRotate else 0)
              else fs.files == old(fs.files)
    {
      if Hardened || !IsFile() || !Owned {
        return;
      }
      if MaxSize > 0 && |fs.files[Path]| > MaxSize {
        Rotate(fs, Path, MaxRotate);
      }
    }

    /** A log in a plain file of this process's own, with a bound and somewhere to go. */
    predicate Rotates()
      reads this
    {
      && !Hardened && Path != "SYSLOG" && Path != "STDOUT" && Path != "STDERR" && Owned
      && MaxSize > 0 && MaxRotate > 0
    }

    function Generations(): nat
      reads this
    {
      if MaxRotate > 0 then MaxRotate else 0
    }

    /** DoRotate as the archive sees it: the log has moved into the past, or all is as it was. */
    method RotateIfLarge(fs: FileSystem, ghost past: seq<seq<byte>>) returns (ghost out: seq<seq<byte>>)
      requires Path in fs.files && Archive(fs.files, Path, Generations(), past)
      modifies fs
      ensures Path in fs.files && Archive(fs.files, Path, Generations(), out)
      ensures if |out| > |past|
              then out == past + [old(fs.files)[Path]] && |old(fs.files)[Path]| > MaxSize && fs.files[Path] == []
              else out == past && fs.files[Path] == old(fs.files)[Path]
      ensures Rotates() ==> |fs.files[Path]| <= MaxSize
    {
      hide Archive;
      ghost var was := fs.files;
      DoRotate(fs);
      out := past;
      if !Hardened && IsFile() && Owned && 0 < MaxSize < |was[Path]| {
        if MaxRotate > 0 {
          ArchiveKeepsLast(fs.files, was, Path, MaxRotate, past);
          out := past + [was[Path]];
        } else {
          NoArchive(fs.files, Path, out);
        }
      }
    }

    lemma NoArchive(fs: Files, log: string, past: seq<seq<byte>>)
      ensures Archive(fs, log, 0, past)
    {
    }

    /** LogFileInternalWrite for one entry after another: first the log is rotated if it has grown too large. */
    method WriteAll(fs: FileSystem, entries: seq<seq<byte>>, ghost past: seq<seq<byte>>)
      returns (ghost out: seq<seq<byte>>)
      requires Path in fs.files && Archive(fs.files, Path, Generations(), past)
      modifies fs
      ensures Path in fs.files && past <= out && Archive(fs.files, Path, Generations(), out)
      ensures Joined(out[|past|..]) + fs.files[Path] == old(fs.files)[Path] + Joined(entries)
      ensures forall i :: |past| <= i < |out| ==> |out[i]| > MaxSize
      ensures Rotates() && entries != [] ==> |fs.files[Path]| <= MaxSize + |entries[|entries| - 1]|
    {
      hide Archive, Joined;
      out := past;
      JoinedNothing();
      ghost var first := fs.files[Path];
      assert out[|past|..] == [] && entries[..0] == [] && [] + first == first + [];
      for i := 0 to |entries|
        invariant Path in fs.files && past <= out && Archive(fs.files, Path, Generations(), out)
        invariant Joined(out[|past|..]) + fs.files[Path] == first + Joined(entries[..i])
        invariant forall k :: |past| <= k < |out| ==> |out[k]| > MaxSize
        invariant Rotates() && i > 0 ==> |fs.files[Path]| <= MaxSize + |entries[i - 1]|
      {
        ghost var before, log := out, fs.files[Path];
        out := RotateIfLarge(fs, out);
        ghost var now := fs.files[Path];
        assert |out| > |before| ==> out[|past|..] == before[|past|..] + [log];
        ArchiveStays(fs.files, Path, Generations(), out, now + entries[i]);
        MovedToPast(before[|past|..], out[|past|..], log, now);
        fs.Append(Path, entries[i]);
        assert entries[..i + 1] == entries[..i] + [entries[i]];
        JoinedNext(entries[..i], entries[i]);
        Behind(Joined(out[|past|..]), now, first, Joined(entries[..i]), entries[i]);
      }
      assert entries[..|entries|] == entries;
    }
  }

}
