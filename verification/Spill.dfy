/** The spill cache: a sequence of records that moves to a newline-framed file when it outgrows its limit. */
module Spill {
  import opened Prelude
  import opened Values
  import opened Read

  type Byte = b: int | 0 <= b < 256

  const NEWLINE: Byte := 10
  const RETURN: Byte := 13

  /** JSON encoding of one record, and the blank test on a line. */
  datatype Codec = Codec(enc: Value -> seq<Byte>, dec: seq<Byte> -> Option<Value>, blank: seq<Byte> -> bool)

  /** Encodings are single, non-blank lines that decode to the record. */
  ghost predicate Good(c: Codec) {
    forall v :: FramesWell(c, v)
  }

  ghost predicate FramesWell(c: Codec, v: Value) {
    && NEWLINE !in c.enc(v)
    && !c.blank(c.enc(v))
    && StripLast(c.enc(v), RETURN) == c.enc(v)
    && c.dec(c.enc(v)) == Some(v)
  }

  /** One encoded line per record. */
  function Frames(c: Codec, vs: seq<Value>): seq<Byte> {
    if vs == [] then [] else c.enc(vs[0]) + [NEWLINE] + Frames(c, vs[1..])
  }

  /** Total encoded size without line ends. */
  function Size(c: Codec, vs: seq<Value>): nat {
    if vs == [] then 0 else |c.enc(vs[0])| + Size(c, vs[1..])
  }

  /** The records of a list of lines; blank lines are skipped. */
  function DecodeLines(c: Codec, lines: seq<seq<Byte>>): Result<seq<Value>, string> {
    if lines == [] then Ok([])
    else
      match DecodeLines(c, lines[..|lines| - 1])
      case Err(e) => Err(e)
      case Ok(vs) =>
        var line := lines[|lines| - 1];
        if c.blank(line) then Ok(vs)
        else
          match c.dec(line)
          case None => Err("invalid record")
          case Some(v) => Ok(vs + [v])
  }

  function Decode(c: Codec, bytes: seq<Byte>): Result<seq<Value>, string> {
    DecodeLines(c, Lines(bytes, NEWLINE, RETURN))
  }

  // ----- framing

  lemma {:induction false} FramesConcat(c: Codec, a: seq<Value>, b: seq<Value>)
    ensures Frames(c, a + b) == Frames(c, a) + Frames(c, b)
    ensures Size(c, a + b) == Size(c, a) + Size(c, b)
  {
    if a == [] {
      assert a + b == b;
    } else {
      assert (a + b)[1..] == a[1..] + b;
      FramesConcat(c, a[1..], b);
    }
  }

  lemma {:induction false} FramesLength(c: Codec, vs: seq<Value>)
    ensures |Frames(c, vs)| == Size(c, vs) + |vs|
  {
    if vs == [] {
    } else {
      FramesLength(c, vs[1..]);
    }
  }

  function Encodings(c: Codec, vs: seq<Value>): (r: seq<seq<Byte>>)
    ensures |r| == |vs| && forall i :: 0 <= i < |r| ==> r[i] == c.enc(vs[i])
  {
    seq(|vs|, i requires 0 <= i < |vs| => c.enc(vs[i]))
  }

  lemma EncodingsCons(c: Codec, vs: seq<Value>)
    requires vs != []
    ensures Encodings(c, vs) == [c.enc(vs[0])] + Encodings(c, vs[1..])
  {
  }

  lemma {:induction false} LinesOfFrames(c: Codec, vs: seq<Value>)
    requires Good(c)
    ensures Lines(Frames(c, vs), NEWLINE, RETURN) == Encodings(c, vs)
  {
    if vs == [] {
    } else {
      LinesOfFrames(c, vs[1..]);
      assert FramesWell(c, vs[0]);
      FirstLine(c.enc(vs[0]), Frames(c, vs[1..]), NEWLINE, RETURN);
      EncodingsCons(c, vs);
    }
  }

  lemma {:induction false} DecodeEncodings(c: Codec, vs: seq<Value>)
    requires Good(c)
    ensures DecodeLines(c, Encodings(c, vs)) == Ok(vs)
  {
    if vs == [] {
    } else {
      var init := vs[..|vs| - 1];
      DecodeEncodings(c, init);
      assert Encodings(c, vs)[..|vs| - 1] == Encodings(c, init);
      assert FramesWell(c, vs[|vs| - 1]);
      assert init + [vs[|vs| - 1]] == vs;
    }
  }

  /** Reading a framed file gives the records back. */
  lemma DecodeFrames(c: Codec, vs: seq<Value>)
    requires Good(c)
    ensures Decode(c, Frames(c, vs)) == Ok(vs)
  {
    LinesOfFrames(c, vs);
    DecodeEncodings(c, vs);
  }

  /** Appending to a file that already holds records returns those too: the file must start empty. */
  lemma LeftoverIff(c: Codec, left: seq<Value>, vs: seq<Value>)
    requires Good(c)
    ensures Decode(c, Frames(c, left) + Frames(c, vs)) == Ok(left + vs)
    ensures Decode(c, Frames(c, left) + Frames(c, vs)) == Ok(vs) <==> left == []
  {
    FramesConcat(c, left, vs);
    DecodeFrames(c, left + vs);
    assert |left + vs| == |left| + |vs|;
    assert left == [] ==> left + vs == vs;
  }

  // ----- the cache

  class Disk {
    var files: map<string, seq<Byte>>

    constructor ()
      ensures files == map[]
    {
      files := map[];
    }
  }

  class PartitionCache {
    const disk: Disk
    const codec: Codec
    const limitBytes: nat
    const spillPath: string
    var inMemory: seq<Value>
    var spilled: bool
    var inMemoryBytes: nat
    var spilledBytes: nat
    var recordCount: nat
    /** What the file held before this cache first wrote to it. */
    ghost var base: seq<Byte>
    /** The records this cache has appended to the file. */
    ghost var onDisk: seq<Value>
    /** Records handed out by earlier drains; the counter keeps them. */
    ghost var drained: nat

    /** What the cache knows by itself: sizes and counts, and nothing in memory once it has spilled. */
    ghost predicate Sound()
      reads this
    {
      && inMemoryBytes == Size(codec, inMemory) <= limitBytes
      && recordCount == drained + |onDisk| + |inMemory|
      && spilledBytes == |Frames(codec, onDisk)|
      && (spilled ==> inMemory == [] && spilledBytes > limitBytes)
      && (!spilled ==> onDisk == [])
    }

    /** The bytes at the spill path. */
    ghost function FileNow(): seq<Byte>
      reads this, disk
    {
      if spillPath in disk.files then disk.files[spillPath] else []
    }

    /** Nobody else has written to the file since this cache was made or drained. */
    ghost predicate Exclusive()
      reads this, disk
    {
      && (spilled ==> spillPath in disk.files)
      && FileNow() == base + Frames(codec, onDisk)
    }

    ghost predicate Valid()
      reads this, disk
    {
      Sound() && Exclusive()
    }

    /** The records pushed since the last drain. */
    ghost function Contents(): seq<Value>
      reads this
    {
      onDisk + inMemory
    }

    constructor (disk: Disk, codec: Codec, limitBytes: nat, spillPath: string)
      ensures Valid() && Contents() == [] && drained == 0 && !spilled
      ensures this.disk == disk && this.codec == codec && this.limitBytes == limitBytes && this.spillPath == spillPath
      ensures base == FileNow()
    {
      this.disk := disk;
      this.codec := codec;
      this.limitBytes := limitBytes;
      this.spillPath := spillPath;
      inMemory, spilled, inMemoryBytes, spilledBytes, recordCount := [], false, 0, 0, 0;
      base := if spillPath in disk.files then disk.files[spillPath] else [];
      onDisk, drained := [], 0;
    }

    function TotalSizeBytes(): nat
      reads this
    {
      spilledBytes + inMemoryBytes
    }

    /** `spill_to_disk`: appends the resident records to whatever the file holds, line by line. */
    method SpillToDisk()
      requires spilledBytes == |Frames(codec, onDisk)|
      modifies this`inMemory, this`spilled, this`inMemoryBytes, this`spilledBytes, this`onDisk, disk
      ensures old(inMemory) == [] ==> unchanged(this) && unchanged(disk)
      ensures old(inMemory) != [] ==>
                && spilled && inMemory == [] && inMemoryBytes == 0
                && onDisk == old(onDisk) + old(inMemory)
                && disk.files == old(disk.files)[spillPath := old(FileNow()) + Frames(codec, old(inMemory))]
                && spilledBytes == |Frames(codec, onDisk)| ==
                   old(spilledBytes) + Size(codec, old(inMemory)) + |old(inMemory)|
      ensures old(FileNow() == base + Frames(codec, onDisk)) ==> FileNow() == base + Frames(codec, onDisk)
    {
      if inMemory == [] {
        return;
      }
      var start := if spillPath in disk.files then disk.files[spillPath] else [];
      var file, written := AppendRecords(codec, start, inMemory);
      FileAfterSpill(codec, base, onDisk, inMemory);
      disk.files := disk.files[spillPath := file];
      spilled := true;
      spilledBytes := spilledBytes + written;
      onDisk := onDisk + inMemory;
      inMemory, inMemoryBytes := [], 0;
    }

    /** `push`: the record is kept in order; the cache spills as soon as its total size exceeds the limit. */
    method Push(value: Value)
      requires Sound()
      modifies this`inMemory, this`spilled, this`inMemoryBytes, this`spilledBytes, this`recordCount, this`onDisk, disk
      ensures Sound() && Contents() == old(Contents()) + [value]
      ensures recordCount == old(recordCount) + 1
      ensures inMemoryBytes <= limitBytes
      ensures spilled <==> old(spilled) || Size(codec, old(inMemory) + [value]) > limitBytes
      ensures !spilled ==> inMemory == old(inMemory) + [value] && disk.files == old(disk.files)
      ensures spilled ==>
                disk.files == old(disk.files)[spillPath := old(FileNow()) + Frames(codec, old(inMemory) + [value])]
      ensures old(Exclusive()) ==> Exclusive() && (spilled ==> spilledBytes == |FileNow()| - |base|)
    {
      FramesConcat(codec, inMemory, [value]);
      assert Size(codec, [value]) == |codec.enc(value)|;
      inMemoryBytes := inMemoryBytes + |codec.enc(value)|;
      recordCount := recordCount + 1;
      inMemory := inMemory + [value];
      if TotalSizeBytes() > limitBytes {
        SpillToDisk();
      }
      assert Contents() == old(Contents()) + [value];
    }

    /** The state after pushing `vs` onto a cache with records `mem` and spill flag `was`, on files `before`. */
    ghost predicate Pushed(was: bool, mem: seq<Value>, before: map<string, seq<Byte>>, vs: seq<Value>)
      reads this, disk
    {
      && (spilled <==> was || Size(codec, mem + vs) > limitBytes)
      && (!spilled ==> inMemory == mem + vs)
      && (vs == [] ==> inMemory == mem)
      && disk.files ==
         if spilled && vs != []
         then before[spillPath := (if spillPath in before then before[spillPath] else []) + Frames(codec, mem + vs)]
         else before
    }

    method PushNext(value: Value, ghost was: bool, ghost mem: seq<Value>, ghost before: map<string, seq<Byte>>,
                    ghost vs: seq<Value>)
      requires Sound() && Pushed(was, mem, before, vs)
      modifies this`inMemory, this`spilled, this`inMemoryBytes, this`spilledBytes, this`recordCount, this`onDisk, disk
      ensures Sound() && Pushed(was, mem, before, vs + [value])
      ensures Contents() == old(Contents()) + [value] && recordCount == old(recordCount) + 1
      ensures old(Exclusive()) ==> Exclusive()
    {
      BatchStep(codec, if spillPath in before then before[spillPath] else [], mem, vs, value);
      assert vs == [] ==> mem + vs == mem;
      Push(value);
    }

    /**
     `push_batch`: spills exactly when everything pushed exceeds the limit, and appends to whatever the file holds.
     */
    method PushBatch(values: seq<Value>)
      requires Sound()
      modifies this`inMemory, this`spilled, this`inMemoryBytes, this`spilledBytes, this`recordCount, this`onDisk, disk
      ensures Sound() && Contents() == old(Contents()) + values
      ensures recordCount == old(recordCount) + |values|
      ensures spilled <==> old(spilled) || Size(codec, old(inMemory) + values) > limitBytes
      ensures !spilled || values == [] ==> disk.files == old(disk.files)
      ensures spilled && values != [] ==>
                disk.files == old(disk.files)[spillPath := old(FileNow()) + Frames(codec, old(inMemory) + values)]
      ensures old(Exclusive()) ==> Exclusive()
    {
      ghost var was, mem, before := spilled, inMemory, disk.files;
      assert mem + values[..0] == mem;
      for i := 0 to |values|
        invariant Sound() && Pushed(was, mem, before, values[..i])
        invariant Contents() == old(Contents()) + values[..i] && recordCount == old(recordCount) + i
        invariant old(Exclusive()) ==> Exclusive()
      {
        TakeNext(values, i);
        AppendInside(old(Contents()), values[..i], values[i]);
        PushNext(values[i], was, mem, before, values[..i]);
      }
      assert values[..|values|] == values;
    }

    /**
     `drain_all`: returns what the file decodes to, then the resident records; a missing or unreadable file changes
     nothing.
     */
    method DrainAll() returns (r: Result<seq<Value>, string>)
      requires Sound()
      modifies this`inMemory, this`spilled, this`inMemoryBytes, this`spilledBytes, this`recordCount, this`onDisk,
        this`base, this`drained, disk
      ensures Sound() && (old(Exclusive()) ==> Exclusive())
      ensures r.Ok? ==> Contents() == [] && !spilled && recordCount == |r.value|
      ensures r.Err? ==> unchanged(this) && unchanged(disk)
      ensures !old(spilled) ==> r == Ok(old(Contents())) && disk.files == old(disk.files)
      ensures old(spilled) && spillPath !in old(disk.files) ==> r.Err?
      ensures old(spilled) && spillPath in old(disk.files) ==>
                var d := Decode(codec, old(disk.files)[spillPath]);
                if d.Err? then r.Err? else r == d && disk.files == old(disk.files) - {spillPath}
      ensures Good(codec) && old(Exclusive()) && old(base) == [] ==> r == Ok(old(Contents()))
    {
      var data := [];
      if spilled {
        if spillPath !in disk.files {
          return Err("opening spill file");
        }
        var lines := Lines(disk.files[spillPath], NEWLINE, RETURN);
        var d := ReadBack(codec, lines);
        FileHoldsRecords(codec, base, onDisk);
        if d.Err? {
          return d;
        }
        data := d.value;
        disk.files := disk.files - {spillPath};
        spilled, spilledBytes := false, 0;
        base := [];
        onDisk := [];
        assert data + inMemory == data;
      }
      data := data + inMemory;
      inMemory, inMemoryBytes, recordCount := [], 0, |data|;
      onDisk, drained := [], |data|;
      r := Ok(data);
    }
  }

  lemma BatchStep(c: Codec, file: seq<Byte>, mem: seq<Value>, vs: seq<Value>, v: Value)
    ensures (mem + vs) + [v] == mem + (vs + [v])
    ensures file + Frames(c, mem + vs) + Frames(c, [v]) == file + Frames(c, mem + (vs + [v]))
    ensures Size(c, mem + (vs + [v])) == Size(c, mem + vs) + Size(c, [v])
  {
    AppendInside(mem, vs, v);
    FramesConcat(c, mem + vs, [v]);
  }

  lemma FileHoldsRecords(c: Codec, base: seq<Byte>, vs: seq<Value>)
    ensures Good(c) && base == [] ==> Decode(c, base + Frames(c, vs)) == Ok(vs)
  {
    if Good(c) && base == [] {
      DecodeFrames(c, vs);
      assert base + Frames(c, vs) == Frames(c, vs);
    }
  }

  lemma FileAfterSpill(c: Codec, base: seq<Byte>, a: seq<Value>, b: seq<Value>)
    ensures base + Frames(c, a) + Frames(c, b) == base + Frames(c, a + b)
    ensures |Frames(c, a + b)| == |Frames(c, a)| + |Frames(c, b)| == |Frames(c, a)| + Size(c, b) + |b|
  {
    FramesConcat(c, a, b);
    FramesLength(c, b);
  }

  /** The write loop of `spill_to_disk`: one line per record, counting the bytes written. */
  method AppendRecords(c: Codec, start: seq<Byte>, vs: seq<Value>) returns (file: seq<Byte>, written: nat)
    ensures file == start + Frames(c, vs) && written == |file| - |start|
  {
    file, written := start, 0;
    for i := 0 to |vs|
      invariant file == start + Frames(c, vs[..i]) && written == |file| - |start|
    {
      var line := c.enc(vs[i]);
      FrameAppend(c, vs[..i], vs[i]);
      assert vs[..i + 1] == vs[..i] + [vs[i]];
      written := written + |line|;
      file := file + line + [NEWLINE];
      written := written + 1;
    }
    assert vs[..|vs|] == vs;
  }

  lemma FrameAppend(c: Codec, vs: seq<Value>, v: Value)
    ensures Frames(c, vs + [v]) == Frames(c, vs) + c.enc(v) + [NEWLINE]
  {
    FramesConcat(c, vs, [v]);
    assert Frames(c, [v]) == c.enc(v) + [NEWLINE];
  }

  lemma {:induction false} DecodeFails(c: Codec, lines: seq<seq<Byte>>, k: nat)
    requires k <= |lines| && DecodeLines(c, lines[..k]).Err?
    ensures DecodeLines(c, lines) == DecodeLines(c, lines[..k])
    decreases |lines|
  {
    if k == |lines| {
      assert lines[..k] == lines;
    } else {
      assert lines[..|lines| - 1][..k] == lines[..k];
      DecodeFails(c, lines[..|lines| - 1], k);
    }
  }

  /** The line loop of `drain_all`. */
  method ReadBack(c: Codec, lines: seq<seq<Byte>>) returns (r: Result<seq<Value>, string>)
    ensures r == DecodeLines(c, lines)
  {
    var data: seq<Value> := [];
    for i := 0 to |lines|
      invariant DecodeLines(c, lines[..i]) == Ok(data)
    {
      assert lines[..i + 1][..i] == lines[..i];
      if !c.blank(lines[i]) {
        var v := c.dec(lines[i]);
        if v.None? {
          DecodeFails(c, lines, i + 1);
          return Err("invalid record");
        }
        data := data + [v.value];
      }
    }
    assert lines[..|lines|] == lines;
    r := Ok(data);
  }

  /**
   `PartitionData::from_records` followed by `into_parts`: the identity on records that fit, or on an absent spill
   file.
   */
  method StoreAndLoad(disk: Disk, codec: Codec, limitBytes: nat, path: string, records: seq<Value>)
    returns (r: Result<seq<Value>, string>)
    modifies disk
    ensures Size(codec, records) <= limitBytes ==> r == Ok(records) && disk.files == old(disk.files)
    ensures Good(codec) && path !in old(disk.files) ==> r == Ok(records) && disk.files == old(disk.files)
  {
    ghost var before := disk.files;
    var cache := new PartitionCache(disk, codec, limitBytes, path);
    cache.PushBatch(records);
    assert cache.Contents() == records by { assert [] + records == records; }
    r := cache.DrainAll();
    if Good(codec) && path !in before {
      assert disk.files == before;
    }
  }

  /**
   Two partitions of one task with the same spill path, as two reads in front of a join have: each comes back as it was
   stored exactly when one of them fits in memory; otherwise the first one returns both and the second one fails.
   */
  method StoreTwoOnOnePath(disk: Disk, codec: Codec, limitBytes: nat, path: string, left: seq<Value>, right: seq<Value>)
    returns (a: Result<seq<Value>, string>, b: Result<seq<Value>, string>)
    requires Good(codec) && path !in disk.files
    modifies disk
    ensures a == Ok(left) && b == Ok(right) <==> Size(codec, left) <= limitBytes || Size(codec, right) <= limitBytes
    ensures Size(codec, left) > limitBytes && Size(codec, right) > limitBytes ==> a == Ok(left + right) && b.Err?
  {
    var first := new PartitionCache(disk, codec, limitBytes, path);
    var second := new PartitionCache(disk, codec, limitBytes, path);
    assert [] + left == left && [] + right == right;
    ghost var one, two := Size(codec, left) > limitBytes, Size(codec, right) > limitBytes;
    first.PushBatch(left);
    assert one ==> left != [] && [] + Frames(codec, left) == Frames(codec, left);
    assert path in disk.files <==> one;
    assert one ==> disk.files[path] == Frames(codec, left);
    second.PushBatch(right);
    assert two ==> right != [] && [] + Frames(codec, right) == Frames(codec, right);
    assert path in disk.files <==> one || two;
    assert one && two ==> disk.files[path] == Frames(codec, left) + Frames(codec, right);
    assert one != two ==> disk.files[path] == Frames(codec, if one then left else right);
    DecodeSpilled(codec, left, right);
    a := first.DrainAll();
    assert a == Ok(if one && two then left + right else left);
    b := second.DrainAll();
    assert one && two ==> |left + right| != |left|;
  }

  /** What the spill file decodes to, whichever of two partitions have been written to it. */
  lemma DecodeSpilled(c: Codec, left: seq<Value>, right: seq<Value>)
    requires Good(c)
    ensures Decode(c, Frames(c, left)) == Ok(left) && Decode(c, Frames(c, right)) == Ok(right)
    ensures Decode(c, Frames(c, left) + Frames(c, right)) == Ok(left + right)
  {
    DecodeFrames(c, left);
    DecodeFrames(c, right);
    LeftoverIff(c, left, right);
  }
}
