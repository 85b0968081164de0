/**
 Hashing of files: all requested hashes are computed in one pass over the file, and
 cached in its extended attributes.
 */
module Hashing {
  import opened EaRecords
  import opened HashCache
  import opened HashProgress
  import opened HashRegions
  import opened ImageHeaders
  import opened ImageRegions
  import opened TurnedRegions
  import opened Wrappers

  /** The walk over a region begins in the mapping, and meets no chunk in which the
      bounds that are computed are out of order. */
  ghost predicate RegionReady(v: View, rs: seq<Region>, c: nat, r: Region)
    requires c > 0
  {
    v.base <= r.start <= End(v) && AssertedWalk(rs, c, r.start, r.start + Length32(r))
  }

  /** The entry y is x after the first k regions. */
  predicate FedUpTo(x: Entry, y: Entry, v: View, rs: seq<Region>, k: nat, u: nat, e: nat) {
    x.handle.Some? && k <= |rs| && y == Absorbing(x, ChunkFed(v, rs[..k], u, e))
  }

  lemma FedActive(x: Entry, y: Entry, v: View, rs: seq<Region>, k: nat, u: nat, e: nat)
    requires FedUpTo(x, y, v, rs, k, u, e)
    requires (forall j :: 0 <= j < k ==> rs[j].start != 0) && (k < |rs| ==> rs[k].start == 0)
    ensures y == Absorbing(x, ChunkFed(v, Active(rs), u, e))
  {
    ActivePrefix(rs, k);
  }

  /** What the walk over all regions feeds. */
  function AllFed(v: View, rs: seq<Region>, c: nat): seq<byte>
    requires c > 0
  {
    RegionWalk(v, Active(rs), c, |Active(rs)|)
  }

  /** The headers of a mapped file, which RtlImageNtHeaderEx has found in the mapping. */
  ghost predicate FoundHeaders(v: View, optional: Option<nat>, h: Header) {
    h == HeaderOf(v, optional) && HeadersMapped(v, h) && (optional.Some? ==> Mapped(v, optional.value, 2))
  }

  /** Only Authenticode hashes are in progress. */
  predicate OnlyAuthenticode(xs: seq<Entry>) {
    forall i :: 0 <= i < |xs| && InProgress(xs[i]) ==> IsAuthenticode(i)
  }

  class HashingContext {
    const digest: (nat, seq<byte>) -> seq<byte>
    const healthy: bool
    const entries: array<Entry>
    const buffer: array<byte>
    var regions: seq<Region>
    var securityBase: nat
    var securitySize: nat

    /** `digest` is what the hash providers compute of the bytes they absorbed.  When
        `healthy`, the providers do not fail, and mapped pages can be read. */
    constructor (size: nat, digest: (nat, seq<byte>) -> seq<byte>, healthy: bool)
      ensures this.digest == digest && this.healthy == healthy
      ensures entries.Length == ALGORITHMS && buffer.Length == size
      ensures fresh(entries) && fresh(buffer)
      ensures entries[..] == NewEntries() && regions == [UNUSED, UNUSED, UNUSED, UNUSED]
    {
      this.digest, this.healthy := digest, healthy;
      entries := new Entry[ALGORITHMS](_ => Entry(None, false, 0, []));
      buffer := new byte[size](_ => 0);
      regions, securityBase, securitySize := [UNUSED, UNUSED, UNUSED, UNUSED], 0, 0;
      new;
      assert entries[..] == NewEntries();
    }

    /** BCryptHashData of n bytes of the buffer. */
    method HashData(i: nat, from: nat, n: nat) returns (ok: bool)
      requires i < entries.Length && from + n <= buffer.Length && entries[i].handle.Some?
      modifies entries
      ensures entries[..] == old(entries[..])[i := entries[i]]
      ensures entries[i] == if ok then Absorbing(old(entries[i]), buffer[from..from + n]) else old(entries[i])
      ensures healthy ==> ok
    {
      ok := true;
      if !healthy {
        ok := *;
      }
      if ok {
        entries[i] := Absorbing(entries[i], buffer[from..from + n]);
      }
    }

    /** The part of KphpUpdateHash for one region. */
    method UpdateFromRegion(i: nat, r: Region, u: nat, length: nat, ghost v: View, ghost unsafeEnd: nat)
      returns (ok: bool)
      requires i < entries.Length && 0 < length <= buffer.Length && entries[i].handle.Some?
      requires u > 0 && v.base <= u && u + length <= End(v) && buffer[..length] == Bytes(v, u, u + length)
      requires 0 < r.start && unsafeEnd == u + length && InOrder(r, u, unsafeEnd)
      modifies entries
      ensures entries[..] == old(entries[..])[i := entries[i]]
      ensures entries[i] == if ok then Absorbing(old(entries[i]), Fed(v, r, u, unsafeEnd)) else old(entries[i])
      ensures healthy ==> ok
    {
      var e := u + length;
      var start := if r.start <= u < r.end then u else if u <= r.start < e then r.start else 0;
      var end := if r.start <= e < r.end then e else if u <= r.end < e then r.end else 0;
      Bounds(v, r, u, e, start, end);
      if start == 0 && end == 0 {
        AbsorbNothing(entries[i]);
        return true;
      }
      if end == 0 {
        end := e;
      } else if start == 0 {
        start := u;
      }
      Copied(v, buffer[..], u, length, start, end);
      ok := HashData(i, start - u, end - start);
    }

    /** The loop of KphpUpdateHash over the regions. */
    method UpdateFromRegions(i: nat, u: nat, length: nat, ghost v: View, ghost e: nat) returns (ok: bool)
      requires i < entries.Length && 0 < length <= buffer.Length && entries[i].handle.Some?
      requires u > 0 && v.base <= u && u + length == e <= End(v) && buffer[..length] == Bytes(v, u, e)
      requires Asserted(regions, u, e)
      modifies entries
      ensures entries[..] == old(entries[..])[i := entries[i]]
      ensures ok ==> entries[i] == Absorbing(old(entries[i]), ChunkFed(v, Active(regions), u, e))
      ensures healthy ==> ok
    {
      ghost var x, rs := entries[i], regions;
      AbsorbNothing(x);
      for k := 0 to |regions|
        invariant forall j :: 0 <= j < k ==> rs[j].start != 0
        invariant entries[..] == old(entries[..])[i := entries[i]]
        invariant FedUpTo(x, entries[i], v, rs, k, u, e)
      {
        if regions[k].start == 0 {
          FedActive(x, entries[i], v, rs, k, u, e);
          return true;
        }
        ok := UpdateFromNext(i, k, u, length, v, e, x);
        if !ok {
          return;
        }
      }
      FedActive(x, entries[i], v, rs, |rs|, u, e);
      ok := true;
    }

    /** One turn of the loop of KphpUpdateHash. */
    method UpdateFromNext(i: nat, k: nat, u: nat, length: nat, ghost v: View, ghost e: nat, ghost x: Entry)
      returns (ok: bool)
      requires i < entries.Length && 0 < length <= buffer.Length && x.handle.Some?
      requires u > 0 && v.base <= u && u + length == e <= End(v) && buffer[..length] == Bytes(v, u, e)
      requires k < |regions| && regions[k].start != 0 && InOrder(regions[k], u, e)
      requires FedUpTo(x, entries[i], v, regions, k, u, e)
      modifies entries
      ensures entries[..] == old(entries[..])[i := entries[i]]
      ensures ok ==> FedUpTo(x, entries[i], v, regions, k + 1, u, e)
      ensures healthy ==> ok
    {
      OneMoreRegion(v, regions, k, u, e);
      AbsorbTwice(x, ChunkFed(v, regions[..k], u, e), Fed(v, regions[k], u, e));
      ok := UpdateFromRegion(i, regions[k], u, length, v, e);
    }

    /** KphpUpdateHash: the buffer holds a copy of the mapped bytes from u on. */
    method UpdateHash(i: nat, u: nat, length: nat, ghost v: View) returns (ok: bool)
      requires i < entries.Length && 0 < length <= buffer.Length && entries[i].handle.Some?
      requires u > 0 && v.base <= u && u + length <= End(v) && buffer[..length] == Bytes(v, u, u + length)
      requires Asserted(regions, u, u + length)
      modifies entries
      ensures entries[..] == old(entries[..])[i := entries[i]]
      ensures ok ==> entries[i] == Absorbing(old(entries[i]), Adds(v, regions, i, u, u + length))
      ensures healthy ==> ok
    {
      if IsAuthenticode(i) {
        ok := UpdateFromRegions(i, u, length, v, u + length);
      } else {
        ok := HashData(i, 0, length);
      }
    }

    /** KphpUpdateHashes. */
    method UpdateHashes(u: nat, length: nat, ghost v: View) returns (ok: bool)
      requires 0 < length <= buffer.Length
      requires u > 0 && v.base <= u && u + length <= End(v) && buffer[..length] == Bytes(v, u, u + length)
      requires Asserted(regions, u, u + length)
      modifies entries
      ensures ok ==> Advanced(v, regions, old(entries[..]), entries[..], u, u + length)
      ensures healthy ==> ok
    {
      for i := 0 to entries.Length
        invariant forall j :: 0 <= j < i ==> entries[j] == Next(old(entries[j]), Adds(v, regions, j, u, u + length))
        invariant forall j :: i <= j < entries.Length ==> entries[j] == old(entries[j])
      {
        if entries[i].complete || entries[i].handle.None? {
          continue;
        }
        ghost var before := entries[..];
        ok := UpdateHash(i, u, length, v);
        if !ok {
          return;
        }
        assert forall j :: 0 <= j < entries.Length && j != i ==> entries[j] == entries[..][j] == before[j];
      }
      ok := true;
    }

    /** RtlCopyMemory from the mapping, which may raise an in-page error, and raises an
        exception out of the mapping. */
    method Read(v: View, u: nat, length: nat) returns (ok: bool)
      requires v.base <= u && length <= buffer.Length
      modifies buffer
      ensures ok ==> u + length <= End(v) && buffer[..length] == Bytes(v, u, u + length)
      ensures healthy ==> (ok <==> u + length <= End(v))
    {
      ok := true;
      if !healthy {
        ok := *;
      }
      if u + length > End(v) {
        ok := false;
      }
      if ok {
        forall k | 0 <= k < length {
          buffer[k] := v.data[u - v.base + k];
        }
      }
    }

    /** A chunk of the mapping is read and hashed. */
    method HashChunk(v: View, u: nat, length: nat, ghost next: nat) returns (ok: bool)
      requires 0 < length <= buffer.Length && 0 < v.base <= u && u + length == next
      requires Asserted(regions, u, next)
      modifies entries, buffer
      ensures ok ==> next <= End(v) && Advanced(v, regions, old(entries[..]), entries[..], u, next)
      ensures healthy && next <= End(v) ==> ok
    {
      ok := Read(v, u, length);
      if ok {
        ok := UpdateHashes(u, length, v);
      }
    }

    /** The loop of KphpHashFile over the mapped file. */
    method HashMappedFile(v: View) returns (ok: bool)
      requires buffer.Length > 0 && v.base > 0 && AssertedWalk(regions, buffer.Length, v.base, End(v))
      modifies entries, buffer
      ensures ok ==> forall i :: 0 <= i < entries.Length ==>
        entries[i] == Next(old(entries[i]), AddsFrom(v, regions, i, buffer.Length, v.base))
      ensures healthy ==> ok
    {
      var offset, readSize := 0, 0;
      var u := v.base;
      AllStart(entries[..], v, regions, buffer.Length);
      while offset < |v.data|
        invariant offset <= |v.data| && u == v.base + offset && AssertedWalk(regions, buffer.Length, u, End(v))
        invariant AllOnWay(entries[..], old(entries[..]), v, regions, buffer.Length, u)
      {
        ghost var before := entries[..];
        readSize := Min(|v.data| - offset, buffer.Length);
        var next := u + readSize;
        assert next == Min(u + buffer.Length, End(v));
        ok := HashChunk(v, u, readSize, next);
        if !ok {
          return;
        }
        AllOneChunkOn(before, entries[..], old(entries[..]), v, regions, buffer.Length, u, next);
        offset, u := offset + readSize, next;
      }
      AllArrived(entries[..], old(entries[..]), v, regions, buffer.Length);
      ok := true;
    }

    method WriteUshort(o: nat, n: nat)
      requires o + 2 <= buffer.Length && n < 0x1_0000
      modifies buffer
      ensures Ushort(buffer[..], o) == n
      ensures forall i :: 0 <= i < buffer.Length && !(o <= i < o + 2) ==> buffer[i] == old(buffer[i])
    {
      buffer[o] := (n % 0x100) as byte;
      buffer[o + 1] := (n / 0x100) as byte;
    }

    method WriteUlong(o: nat, n: nat)
      requires o + 4 <= buffer.Length && n < 0x1_0000_0000
      modifies buffer
      ensures Ulong(buffer[..], o) == n
      ensures forall i :: 0 <= i < buffer.Length && !(o <= i < o + 4) ==> buffer[i] == old(buffer[i])
    {
      Split32(n);
      buffer[o] := (n % 0x100) as byte;
      buffer[o + 1] := (n / 0x100 % 0x100) as byte;
      buffer[o + 2] := (n / 0x1_0000 % 0x100) as byte;
      buffer[o + 3] := (n / 0x100_0000) as byte;
    }

    /** RtlCopyMemory into the buffer. */
    method CopyTo(o: nat, s: seq<byte>)
      requires o + |s| <= buffer.Length
      modifies buffer
      ensures buffer[o..o + |s|] == s
      ensures forall i :: 0 <= i < buffer.Length && !(o <= i < o + |s|) ==> buffer[i] == old(buffer[i])
    {
      forall i | 0 <= i < |s| {
        buffer[o + i] := s[i];
      }
    }

    method WriteFields(o: nat, name: seq<byte>, value: seq<byte>)
      requires |name| < 256 && |value| < 0x1000 && o + Used(Record(name, value)) <= buffer.Length
      modifies buffer
      ensures Fields(buffer[..], o, Record(name, value))
      ensures forall i :: 0 <= i < o ==> buffer[i] == old(buffer[i])
    {
      buffer[o + 4] := 0;
      buffer[o + 5] := |name| as byte;
      WriteUshort(o + 6, |value|);
      CopyTo(o + 8, name);
      buffer[o + 8 + |name|] := 0;
      CopyTo(o + 9 + |name|, value);
      assert buffer[..][o + 8..o + 8 + |name|] == name;
    }

    /** Fills in a record, as KphpFinishHashes does. */
    method WriteRecord(o: nat, name: seq<byte>, value: seq<byte>)
      requires |name| < 256 && |value| < 0x1000 && o + Size(Record(name, value)) <= buffer.Length
      modifies buffer
      ensures RecordAt(buffer[..], o, Record(name, value), Size(Record(name, value)))
      ensures forall i :: 0 <= i < o ==> buffer[i] == old(buffer[i])
    {
      WriteFields(o, name, value);
      ghost var b := buffer[..];
      WriteUlong(o, AlignUp(9 + |name| + |value|));
      FieldsSame(b, buffer[..], o, Record(name, value));
    }

    /** The next record, behind the one at `at`. */
    method AppendRecord(at: nat, name: seq<byte>, value: seq<byte>, ghost rs: seq<Record>) returns (next: nat)
      requires |name| < 256 && |value| < 0x1000 && Total(rs) + Size(Record(name, value)) <= buffer.Length
      requires Laid(buffer[..], 0, rs)
      requires if rs == [] then at == 0 && Ulong(buffer[..], 0) == 0 else at == Total(rs[..|rs| - 1])
      modifies buffer
      ensures Laid(buffer[..], 0, rs + [Record(name, value)]) && next == Total(rs)
    {
      if rs != [] {
        BehindLast(buffer[..], 0, rs, at);
      }
      next := at + Ulong(buffer[..], at);
      ghost var b := buffer[..];
      WriteRecord(next, name, value);
      LaidSame(b, buffer[..], 0, rs);
      LaidAppend(buffer[..], 0, rs, Record(name, value), next);
    }

    /** The providers' digests have the sizes of the algorithms. */
    ghost predicate Provided() {
      forall i: nat, s :: |digest(i, s)| == HashSize(i)
    }

    /** BCryptFinishHash. */
    method FinishHash(i: nat) returns (ok: bool)
      requires i < entries.Length && entries[i].handle.Some?
      modifies entries
      ensures entries[..] == old(entries[..])[i := if ok then Finished(digest, old(entries[i]), i) else old(entries[i])]
      ensures healthy ==> ok
    {
      ok := true;
      if !healthy {
        ok := *;
      }
      if ok {
        entries[i] := Finished(digest, entries[i], i);
      }
    }

    /** One turn of the loop of KphpFinishHashes. */
    method FinishOne(i: nat, ea: bool, at: nat, length: nat, ghost rs: seq<Record>)
      returns (ok: bool, at': nat, length': nat)
      requires i < entries.Length == ALGORITHMS && entries[i].handle.Some? && Provided()
      requires ea ==> Written(buffer[..], rs, at, length) && length + Room(i) <= buffer.Length
      modifies entries, buffer
      ensures entries[..] == old(entries[..])[i := if ok then Finished(digest, old(entries[i]), i) else old(entries[i])]
      ensures ok && ea ==> Written(buffer[..], rs + [RecordOf(i, entries[i].hash)], at', length')
      ensures ok && ea ==> length' <= length + Room(i)
      ensures ok && !ea ==> length' == length
      ensures healthy ==> ok
    {
      at', length' := at, length;
      ok := FinishHash(i);
      if !ok || !ea {
        return;
      }
      var r := RecordOf(i, entries[i].hash);
      SizeFits(i, entries[i].hash);
      at' := AppendRecord(at, r.name, r.value, rs);
      length' := length + Size(r);
      TotalAppend(rs, r);
      assert (rs + [r])[..|rs|] == rs;
    }

    /** The last record is marked as such, and the records are handed over. */
    method TakeChain(at: nat, length: nat, ghost rs: seq<Record>) returns (bytes: seq<byte>)
      requires Written(buffer[..], rs, at, length) && rs != [] && length <= buffer.Length
      modifies buffer
      ensures Chain(bytes, 0, rs) && |bytes| == length
    {
      ghost var b := buffer[..];
      BehindLast(b, 0, rs, at);
      WriteUlong(at, 0);
      Close(b, buffer[..], 0, rs, at);
      ChainCut(buffer[..], 0, rs, length);
      bytes := buffer[..length];
    }

    /** One turn of the loop of KphpFinishHashes. */
    method FinishTurn(i: nat, ea: bool, at: nat, length: nat) returns (ok: bool, at': nat, length': nat)
      requires i < entries.Length == ALGORITHMS && Provided() && buffer.Length >= Bound(ALGORITHMS)
      requires Progress(ea, buffer[..], entries[..], i, at, length)
      modifies entries, buffer
      ensures entries[..] == old(entries[..])[i := if ok then Finished(digest, old(entries[i]), i) else old(entries[i])]
      ensures ok ==> Progress(ea, buffer[..], entries[..], i + 1, at', length')
      ensures healthy ==> ok
    {
      ghost var before := entries[..];
      ghost var rs := RecordsOf(before, i);
      if entries[i].handle.None? {
        assert rs + [] == rs;
        return true, at, length;
      }
      BoundGrows(i + 1, ALGORITHMS);
      ok, at', length' := FinishOne(i, ea, at, length, rs);
      RecordsSame(before, entries[..], i);
    }

    /** The loop of KphpFinishHashes. */
    method FinishAll(ea: bool) returns (ok: bool, at: nat, length: nat)
      requires entries.Length == ALGORITHMS && Provided() && buffer.Length >= Bound(ALGORITHMS)
      requires Progress(ea, buffer[..], entries[..], 0, 0, 0)
      modifies entries, buffer
      ensures ok ==> Progress(ea, buffer[..], entries[..], ALGORITHMS, at, length)
      ensures ok ==> forall i :: 0 <= i < entries.Length ==> entries[i] == Finished(digest, old(entries[i]), i)
      ensures healthy ==> ok
    {
      at, length := 0, 0;
      for i := 0 to entries.Length
        invariant Progress(ea, buffer[..], entries[..], i, at, length)
        invariant forall j :: 0 <= j < i ==> entries[j] == Finished(digest, old(entries[j]), j)
        invariant forall j :: i <= j < entries.Length ==> entries[j] == old(entries[j])
      {
        ghost var before := entries[..];
        ok, at, length := FinishTurn(i, ea, at, length);
        if !ok {
          return;
        }
        assert forall j :: 0 <= j < entries.Length && j != i ==> entries[j] == entries[..][j] == before[j];
      }
      ok := true;
    }

    /** KphpFinishHashes; `stored` is what FsRtlSetKernelEaFile is given, if it is
        called.  `ea` says that the file is to have a cache, and `consistent` that
        the oplock still guarantees that it fits the file. */
    method FinishHashes(ea: bool, consistent: bool) returns (ok: bool, stored: Option<seq<byte>>)
      requires entries.Length == ALGORITHMS && buffer.Length >= Bound(ALGORITHMS) && Provided()
      modifies entries, buffer
      ensures ok ==> forall i :: 0 <= i < entries.Length ==> entries[i] == Finished(digest, old(entries[i]), i)
      ensures ok ==> (stored.Some? <==> ea && consistent && RecordsOf(entries[..], ALGORITHMS) != [])
      ensures ok && stored.Some? ==> StoredAs(stored.value, RecordsOf(entries[..], ALGORITHMS))
      ensures healthy ==> ok
    {
      stored := None;
      var at: nat, length: nat;
      BoundFits();
      if ea {
        WriteUlong(0, 0);
      }
      ok, at, length := FinishAll(ea);
      if !ok {
        return;
      }
      ghost var rs := RecordsOf(entries[..], ALGORITHMS);
      SomeLength(rs);
      if length != 0 && consistent {
        var bytes := TakeChain(at, length, rs);
        stored := Some(bytes);
      }
    }

    method TakeHash(i: nat, value: seq<byte>)
      requires i < entries.Length
      modifies entries
      ensures entries[..] == old(entries[..])[i := old(entries[i]).(hash := value, length := |value|, complete := true)]
    {
      entries[i] := entries[i].(hash := value, length := |value|, complete := true);
    }

    /** Takes over the hash of the record at `at`, if it is one of ours. */
    method LoadRecord(at: nat, ghost r: Record)
      requires entries.Length == ALGORITHMS && Fields(buffer[..], at, r)
      modifies entries
      ensures entries[..] == LoadOne(old(entries[..]), r)
    {
      var nameLength, valueLength := buffer[at + 5] as nat, Ushort(buffer[..], at + 6);
      var name := buffer[at + 8..at + 8 + nameLength];
      assert name == r.name && valueLength == |r.value|;
      for i := 0 to ALGORITHMS
        invariant AlgorithmOf(r, i) == None && entries[..] == old(entries[..])
      {
        if valueLength != HashSize(i) {
          continue;
        }
        if name != Name(i) {
          continue;
        }
        Recognizes(r, i, ALGORITHMS);
        var value := buffer[at + 8 + nameLength + 1..at + 8 + nameLength + 1 + valueLength];
        assert value == r.value;
        TakeHash(i, value);
        return;
      }
    }

    /** KphpLoadHashesFromEaCache; `query` is what FsRtlQueryKernelEaFile returned. */
    method LoadHashes(query: Option<seq<byte>>, ghost rs: seq<Record>)
      requires entries.Length == ALGORITHMS
      requires query.Some? ==> |query.value| <= buffer.Length && Chain(query.value, 0, rs)
      modifies entries, buffer
      ensures entries[..] == if query.Some? then LoadAll(old(entries[..]), rs) else old(entries[..])
    {
      if query.None? {
        return;
      }
      CopyTo(0, query.value);
      assert buffer[..][..|query.value|] == query.value;
      ChainExtend(buffer[..], 0, rs, |query.value|);
      LoadChain(rs);
    }

    /** One turn of the loop of KphpLoadHashesFromEaCache. */
    method LoadNext(at: nat, ghost b: seq<byte>, ghost rs: seq<Record>, ghost xs: seq<Entry>, ghost done: seq<Record>)
      returns (at': nat, more: bool)
      requires entries.Length == ALGORITHMS && buffer[..] == b && Chain(b, at, rs)
      requires |xs| == ALGORITHMS && entries[..] == LoadAll(xs, done)
      modifies entries
      ensures rs != [] && ChainOrEnd(b, at', rs[1..], more)
      ensures entries[..] == LoadAll(xs, done + [rs[0]])
    {
      ChainStep(b, at, rs);
      LoadStep(xs, done, rs[0]);
      LoadRecord(at, rs[0]);
      more := Ulong(buffer[..], at) != 0;
      at' := at + Ulong(buffer[..], at);
    }

    method LoadChain(ghost rs: seq<Record>)
      requires entries.Length == ALGORITHMS && Chain(buffer[..], 0, rs)
      modifies entries
      ensures entries[..] == LoadAll(old(entries[..]), rs)
    {
      var at: nat, more := 0, true;
      ghost var b, xs, k := buffer[..], entries[..], 0;
      while more
        invariant buffer[..] == b && k <= |rs| && ChainOrEnd(b, at, rs[k..], more)
        invariant entries[..] == LoadAll(xs, rs[..k])
        decreases |rs| - k
      {
        ghost var rest, done := rs[k..], rs[..k];
        at, more := LoadNext(at, b, rest, xs, done);
        assert rs[k + 1..] == rest[1..] && rs[..k + 1] == done + [rest[0]];
        k := k + 1;
      }
      assert rs[..k] == rs;
    }

    /** KphpInitializeHashingContext for the requested algorithms. */
    method InitializeHashes(requested: seq<int>) returns (ok: bool, required: bool)
      requires entries.Length == ALGORITHMS
      modifies entries
      ensures ok ==> forall k :: 0 <= k < |requested| ==> 0 <= requested[k] < ALGORITHMS
      ensures ok ==> forall i :: 0 <= i < entries.Length ==> entries[i] == Started(old(entries[i]), i, i in requested)
      ensures ok ==> (required <==>
        exists i :: 0 <= i < entries.Length && entries[i].handle.Some? && old(entries[i].handle.None?))
      ensures healthy && ForAlgorithms(requested) ==> ok
    {
      required := false;
      for k := 0 to |requested|
        invariant forall j :: 0 <= j < k ==> 0 <= requested[j] < ALGORITHMS
        invariant forall i :: 0 <= i < entries.Length ==> entries[i] == Started(old(entries[i]), i, i in requested[..k])
        invariant required <==>
          exists i :: 0 <= i < entries.Length && entries[i].handle.Some? && old(entries[i].handle.None?)
      {
        var a := requested[k];
        assert forall i :: i in requested[..k + 1] <==> i in requested[..k] || i == a;
        if a >= ALGORITHMS || a < 0 {
          return false, required;
        }
        if entries[a].complete || entries[a].handle.Some? {
          continue;
        }
        required := true;
        var created := true;
        if !healthy {
          created := *;
        }
        if !created {
          return false, required;
        }
        entries[a] := entries[a].(length := HashSize(a), handle := Some([]));
      }
      assert requested[..|requested|] == requested;
      ok := true;
    }

    /** The loop over the regions that is meant to check their bounds; it ends at the
        first region in use. */
    method VerifyRegions(base: nat, end: nat) returns (ok: bool)
      ensures regions != [] && regions[0].start != 0 ==> ok
    {
      for i := 0 to |regions|
        invariant i > 0 ==> regions[0].start == 0
      {
        var r := regions[i];
        if r.start != 0 {
          break;
        }
        if r.end < r.start || r.start < base || r.end < base || r.start >= end || r.end > end {
          return false;
        }
      }
      ok := true;
    }

    /** KphpInitializeAuthenticodeHashing; `optional` is the address of the optional
        header that RtlImageNtHeaderEx finds, if it does. */
    method InitializeAuthenticode(v: View, optional: Option<nat>, ghost h: Header) returns (ok: bool)
      requires FoundHeaders(v, optional, h)
      modifies this`regions, this`securityBase, this`securitySize
      ensures ok <==> Accepted(v, h)
      ensures regions == if ok then Regions(v, h) else [UNUSED, UNUSED, UNUSED, UNUSED]
      ensures ok && Signed(h) ==> securityBase == SecurityBase(v, h) && securitySize == h.size
      ensures !(ok && Signed(h)) ==> securityBase == 0
    {
      var end := v.base + |v.data|;
      regions, securityBase, securitySize := [UNUSED, UNUSED, UNUSED, UNUSED], 0, 0;
      if optional.None? {
        return false;
      }
      var header := optional.value - v.base;
      var magic := Ushort(v.data, header);
      if magic != MAGIC32 && magic != MAGIC64 {
        return false;
      }
      var wide := magic == MAGIC64;
      regions := regions[0 := Region(v.base, optional.value + 64)];
      var directories := Ulong(v.data, header + if wide then 108 else 92);
      if directories <= 4 {
        regions := regions[1 := Region(optional.value + 68, end)];
        ok := VerifyRegions(v.base, end);
        return;
      }
      var directory := optional.value + if wide then 144 else 128;
      regions := regions[1 := Region(optional.value + 68, directory)];
      var address, size := Ulong(v.data, directory - v.base), Ulong(v.data, directory - v.base + 4);
      if address == 0 || size == 0 {
        regions := regions[2 := Region(directory + 8, end)];
        ok := VerifyRegions(v.base, end);
        return;
      }
      ok := AddSecurity(v, directory, address, size);
    }

    /** The part of it for an image with certificates. */
    method AddSecurity(v: View, directory: nat, address: nat, size: nat) returns (ok: bool)
      requires |regions| == 4 && regions[0].start != 0 && address != 0 && size != 0 && v.base > 0
      modifies this`regions, this`securityBase, this`securitySize
      ensures ok <==> v.base + address + size <= End(v)
      ensures ok ==> securityBase == v.base + address && securitySize == size
      ensures ok ==> regions == old(regions)[2 := Region(directory + 8, v.base + address)]
        [3 := if v.base + address + size < End(v) then Region(v.base + address + size, End(v)) else old(regions[3])]
      ensures !ok ==> regions == [UNUSED, UNUSED, UNUSED, UNUSED] && securityBase == 0
    {
      var end := v.base + |v.data|;
      var securityEnd := v.base + address + size;
      securityBase, securitySize := v.base + address, size;
      regions := regions[2 := Region(directory + 8, securityBase)];
      if securityEnd < end {
        regions := regions[3 := Region(securityEnd, end)];
      }
      ok := VerifyRegions(v.base, end);
      if securityEnd < securityBase || securityBase < v.base || securityEnd < v.base
        || securityBase >= end || securityEnd > end
      {
        ok := false;
        regions, securityBase, securitySize := [UNUSED, UNUSED, UNUSED, UNUSED], 0, 0;
      }
    }

    /** The inner loop of KphGetAuthenticodeInformation, over `length` bytes. */
    method HashRange(v: View, start: nat, length: nat, ghost e: nat) returns (ok: bool)
      requires 0 < buffer.Length && 0 < v.base <= start <= End(v) && start + length == e
      requires AssertedWalk(regions, buffer.Length, start, e)
      requires OnlyAuthenticode(entries[..])
      modifies entries, buffer
      ensures ok ==> e <= End(v)
      ensures ok ==> AllNext(old(entries[..]), entries[..], Walk(v, Active(regions), buffer.Length, start, e))
      ensures healthy && e <= End(v) ==> ok
    {
      var offset, readSize := 0, 0;
      var u := start;
      while offset < length
        invariant offset <= length && u == start + offset <= End(v) && AssertedWalk(regions, buffer.Length, u, e)
        invariant RangeOnWay(entries[..], old(entries[..]), v, regions, buffer.Length, start, u, e)
      {
        ghost var before := entries[..];
        readSize := Min(length - offset, buffer.Length);
        var next := u + readSize;
        assert next == Min(u + buffer.Length, e);
        ok := HashChunk(v, u, readSize, next);
        if !ok {
          return;
        }
        RangeChunkOn(before, entries[..], old(entries[..]), v, regions, buffer.Length, start, u, next, e);
        offset, u := offset + readSize, next;
      }
      RangeArrived(entries[..], old(entries[..]), v, regions, buffer.Length, start, e);
      ok := true;
    }

    /** One turn of the loop of KphGetAuthenticodeInformation over the regions. */
    method HashMappedRegion(v: View, r: Region) returns (ok: bool)
      requires 0 < buffer.Length && 0 < v.base && RegionReady(v, regions, buffer.Length, r)
      requires OnlyAuthenticode(entries[..])
      modifies entries, buffer
      ensures ok ==> Inside32(v, r)
      ensures ok ==> AllNext(old(entries[..]), entries[..], OneFed(v, Active(regions), buffer.Length, r))
      ensures healthy && Inside32(v, r) ==> ok
    {
      var length := (r.end - r.start) % 0x1_0000_0000;
      ok := HashRange(v, r.start, length, r.start + length);
    }

    method HashNextRegion(v: View, r: Region, ghost rs: seq<Region>, ghost k: nat, ghost xs: seq<Entry>)
      returns (ok: bool)
      requires 0 < buffer.Length && 0 < v.base && RegionReady(v, regions, buffer.Length, r)
      requires rs == Active(regions) && k < |rs| && r == rs[k]
      requires AllNext(xs, entries[..], RegionWalk(v, rs, buffer.Length, k))
      requires OnlyAuthenticode(entries[..])
      modifies entries, buffer
      ensures ok ==> Inside32(v, r) && AllNext(xs, entries[..], RegionWalk(v, rs, buffer.Length, k + 1))
      ensures ok ==> OnlyAuthenticode(entries[..])
      ensures healthy && Inside32(v, r) ==> ok
    {
      ghost var before := entries[..];
      ok := HashMappedRegion(v, r);
      if ok {
        AllNextTwice(xs, before, entries[..], RegionWalk(v, rs, buffer.Length, k), OneFed(v, rs, buffer.Length, r));
      }
    }

    /** The loop of KphGetAuthenticodeInformation over the regions. */
    method HashMappedRegions(v: View) returns (ok: bool)
      requires 0 < buffer.Length && 0 < v.base
      requires forall i :: 0 <= i < |Active(regions)| ==> RegionReady(v, regions, buffer.Length, Active(regions)[i])
      requires OnlyAuthenticode(entries[..])
      modifies entries, buffer
      ensures ok ==> StaysInside(v, Active(regions))
      ensures ok ==> AllNext(old(entries[..]), entries[..], AllFed(v, regions, buffer.Length))
      ensures healthy && StaysInside(v, Active(regions)) ==> ok
    {
      ghost var rs, c := Active(regions), buffer.Length;
      var k := 0;
      ghost var xs := entries[..];
      AllNothing(xs);
      ActiveLength(regions);
      while k < |regions| && regions[k].start != 0
        invariant k <= |rs| && AllNext(xs, entries[..], RegionWalk(v, rs, c, k))
        invariant StaysInside(v, rs[..k])
        invariant OnlyAuthenticode(entries[..])
      {
        assert regions[k] == rs[k];
        ok := HashNextRegion(v, regions[k], rs, k, xs);
        if !ok {
          return;
        }
        OneMoreInside(v, rs, k);
        k := k + 1;
      }
      assert k == |rs| && rs[..k] == rs;
      ok := true;
    }

    /** The part of KphpHashFile with the mapped file. */
    method HashMapped(v: View, optional: Option<nat>, ghost h: Header, ea: bool, consistent: bool)
      returns (ok: bool, stored: Option<seq<byte>>)
      requires entries.Length == ALGORITHMS && buffer.Length == BUFFER_SIZE && Provided()
      requires FoundHeaders(v, optional, h) && regions == [UNUSED, UNUSED, UNUSED, UNUSED]
      requires entries[SHA1_AUTHENTICODE].handle.Some? || entries[SHA256_AUTHENTICODE].handle.Some? ==>
        Accepted(v, h) ==> Separate(v, h, BUFFER_SIZE)
      modifies entries, buffer, this`regions, this`securityBase, this`securitySize
      ensures ok ==> forall i :: 0 <= i < entries.Length ==>
        entries[i] == Finished(digest, Next(old(entries[i]), Input(v, h, i)), i)
      ensures ok && stored.Some? ==> StoredAs(stored.value, RecordsOf(entries[..], ALGORITHMS))
      ensures healthy ==> ok
      ensures ok ==> (stored.Some? <==> ea && consistent && RecordsOf(entries[..], ALGORITHMS) != [])
    {
      stored := None;
      ghost var xs := entries[..];
      if entries[SHA1_AUTHENTICODE].handle.Some? || entries[SHA256_AUTHENTICODE].handle.Some? {
        var accepted := InitializeAuthenticode(v, optional, h);
        if accepted {
          AssertionHolds(v, h, BUFFER_SIZE);
        } else {
          NoneTurned(regions, BUFFER_SIZE, v.base, End(v));
        }
      } else {
        NoneTurned(regions, BUFFER_SIZE, v.base, End(v));
      }
      ok := HashMappedFile(v);
      if !ok {
        return;
      }
      BoundFits();
      forall i | 0 <= i < entries.Length ensures entries[i] == Next(xs[i], Input(v, h, i)) {
        if IsAuthenticode(i) && xs[i].handle.None? {
          assert entries[i] == xs[i];
        } else {
          InputAdded(v, h, regions, i);
        }
      }
      ok, stored := FinishHashes(ea, consistent);
    }

    /** The part of KphGetAuthenticodeInformation with the mapped file. */
    method HashInformation(v: View, ghost h: Header, ea: bool, consistent: bool) returns (ok: bool)
      requires entries.Length == ALGORITHMS && buffer.Length == BUFFER_SIZE && Provided()
      requires HeadersMapped(v, h) && Accepted(v, h) && regions == Regions(v, h)
      requires OnlyAuthenticode(entries[..])
      modifies entries, buffer
      ensures ok ==> StaysInside(v, Active(Regions(v, h)))
      ensures ok ==> forall i :: 0 <= i < entries.Length ==>
        entries[i] == Finished(digest, Next(old(entries[i]), InformationInput(v, h)), i)
      ensures healthy && StaysInside(v, Active(Regions(v, h))) ==> ok
    {
      RegionsMapped(v, h);
      forall i | 0 <= i < |Active(regions)|
        ensures RegionReady(v, regions, BUFFER_SIZE, Active(regions)[i])
      {
        InformationAsserted(v, h, BUFFER_SIZE, i);
      }
      ok := HashMappedRegions(v);
      if !ok {
        return;
      }
      BoundFits();
      var stored: Option<seq<byte>>;
      ok, stored := FinishHashes(ea, consistent);
    }

    /** KphpCopyHashes: the hashes are complete, as it asserts. */
    method CopyHashes(requested: seq<int>) returns (hashes: seq<seq<byte>>)
      requires forall k :: 0 <= k < |requested| ==> 0 <= requested[k] < entries.Length && entries[requested[k]].complete
      ensures |hashes| == |requested| && forall k :: 0 <= k < |hashes| ==> hashes[k] == entries[requested[k]].hash
    {
      hashes := [];
      for k := 0 to |requested|
        invariant |hashes| == k && forall j :: 0 <= j < k ==> hashes[j] == entries[requested[j]].hash
      {
        hashes := hashes + [entries[requested[k]].hash];
      }
    }
  }

  /** The entries of a new context, with what the cache of the file holds. */
  function Known(query: Option<seq<byte>>, rs: seq<Record>): (xs: seq<Entry>)
    ensures |xs| == ALGORITHMS
  {
    if query.Some? then LoadAll(NewEntries(), rs) else NewEntries()
  }

  /** The bytes of which KphpHashFile computes a hash. */
  function Input(v: View, h: Header, a: nat): seq<byte> {
    if IsAuthenticode(a)
    then Walk(v, if Accepted(v, h) then Active(Regions(v, h)) else [], BUFFER_SIZE, v.base, End(v))
    else v.data
  }

  const BUFFER_SIZE: nat := 16 * 1024

  lemma {:induction false} NothingWalked(v: View, c: nat, u: nat)
    requires c > 0
    ensures Walk(v, [], c, u, End(v)) == []
    decreases if u < End(v) then End(v) - u else 0
  {
    if u < End(v) {
      NothingWalked(v, c, Min(u + c, End(v)));
    }
  }

  /** A hash is computed of the whole file, and an Authenticode hash of the image
      without its three gaps, if and only if no part of it begins at an unlucky place.
      What is not accepted as an image still gets one, of nothing. */
  lemma InputMeaning(v: View, h: Header, a: nat)
    requires HeadersMapped(v, h)
    requires IsAuthenticode(a) && Accepted(v, h) ==> Separate(v, h, BUFFER_SIZE)
    ensures !IsAuthenticode(a) ==> Input(v, h, a) == v.data
    ensures IsAuthenticode(a) && !Accepted(v, h) ==> Input(v, h, a) == []
    ensures IsAuthenticode(a) && Accepted(v, h) && !MayAgree(v, h, BUFFER_SIZE) ==>
      (Input(v, h, a) == Ungapped(v, h) <==> Behind(v, h) && Lucky(v, h, BUFFER_SIZE))
  {
    if IsAuthenticode(a) && Accepted(v, h) {
      FileWalk(v, h, BUFFER_SIZE);
    }
    NothingWalked(v, BUFFER_SIZE, v.base);
  }

  /** A known hash is answered as it is, and any other computed. */
  function Answer(digest: (nat, seq<byte>) -> seq<byte>, known: seq<Entry>, input: nat -> seq<byte>, a: nat): seq<byte>
    requires a < |known|
  {
    if known[a].complete then known[a].hash else digest(a, input(a))
  }

  /** The answers to the requests, from the cache or computed. */
  ghost predicate Answers(hashes: seq<seq<byte>>, requested: seq<int>, digest: (nat, seq<byte>) -> seq<byte>,
                          known: seq<Entry>, input: nat -> seq<byte>)
    requires |known| == ALGORITHMS
  {
    && |hashes| == |requested|
    && forall k :: 0 <= k < |hashes| ==>
         0 <= requested[k] < ALGORITHMS && hashes[k] == Answer(digest, known, input, requested[k])
  }

  lemma InputAdded(v: View, h: Header, rs: seq<Region>, i: nat)
    requires IsAuthenticode(i) ==> rs == if Accepted(v, h) then Regions(v, h) else [UNUSED, UNUSED, UNUSED, UNUSED]
    ensures AddsFrom(v, rs, i, BUFFER_SIZE, v.base) == Input(v, h, i)
  {
  }

  /** What the hashing leaves of an entry that was requested. */
  lemma Answered(digest: (nat, seq<byte>) -> seq<byte>, x: Entry, i: nat, input: seq<byte>)
    requires x.handle.None?
    ensures var y := Finished(digest, Next(Started(x, i, true), input), i);
      y.complete && y.hash == if x.complete then x.hash else digest(i, input)
  {
    assert [] + input == input;
  }

  lemma {:induction false} Idle(rs: seq<Record>, xs: seq<Entry>)
    requires |xs| == ALGORITHMS && forall i :: 0 <= i < |xs| ==> xs[i].handle.None?
    ensures forall i :: 0 <= i < ALGORITHMS ==> LoadAll(xs, rs)[i].handle.None?
  {
    if rs != [] {
      Idle(rs[..|rs| - 1], xs);
    }
  }

  /** All requests are for algorithms that there are. */
  predicate ForAlgorithms(requested: seq<int>) {
    forall k :: 0 <= k < |requested| ==> 0 <= requested[k] < ALGORITHMS
  }

  /** Something has to be computed. */
  predicate Needed(known: seq<Entry>, requested: seq<int>)
    requires |known| == ALGORITHMS
  {
    exists k :: 0 <= k < |requested| && 0 <= requested[k] < ALGORITHMS && !known[requested[k]].complete
  }

  /** The entries that a request starts with. */
  ghost predicate Begun(xs: seq<Entry>, known: seq<Entry>, requested: seq<int>, required: bool)
    requires |known| == ALGORITHMS
  {
    && |xs| == ALGORITHMS
    && ForAlgorithms(requested)
    && (forall i :: 0 <= i < ALGORITHMS ==> known[i].handle.None? && xs[i] == Started(known[i], i, i in requested))
    && (required <==> Needed(known, requested))
  }

  /** KphpAllocateHashingContext and KphpInitializeFileHashingContext. */
  method NewContext(digest: (nat, seq<byte>) -> seq<byte>, requested: seq<int>, query: Option<seq<byte>>,
                    ghost rs: seq<Record>, healthy: bool)
    returns (context: HashingContext, ok: bool, required: bool)
    requires query.Some? ==> |query.value| <= BUFFER_SIZE && Chain(query.value, 0, rs)
    ensures fresh(context) && fresh(context.entries) && fresh(context.buffer) && context.digest == digest
    ensures context.healthy == healthy && (healthy && ForAlgorithms(requested) ==> ok)
    ensures context.entries.Length == ALGORITHMS && context.buffer.Length == BUFFER_SIZE
    ensures context.regions == [UNUSED, UNUSED, UNUSED, UNUSED]
    ensures ok ==> Begun(context.entries[..], Known(query, rs), requested, required)
  {
    context := new HashingContext(BUFFER_SIZE, digest, healthy);
    context.LoadHashes(query, rs);
    ghost var known := Known(query, rs);
    Idle(rs, NewEntries());
    ok, required := context.InitializeHashes(requested);
    if ok {
      RequiredIff(context.entries[..], known, requested);
    }
  }

  lemma RequiredIff(xs: seq<Entry>, known: seq<Entry>, requested: seq<int>)
    requires |xs| == |known| == ALGORITHMS && ForAlgorithms(requested)
    requires forall i :: 0 <= i < |xs| ==> known[i].handle.None? && xs[i] == Started(known[i], i, i in requested)
    ensures (exists i :: 0 <= i < |xs| && xs[i].handle.Some?) <==> Needed(known, requested)
  {
    if i :| 0 <= i < |xs| && xs[i].handle.Some? {
      var k :| 0 <= k < |requested| && requested[k] == i;
      assert !known[requested[k]].complete;
    }
    if k :| 0 <= k < |requested| && !known[requested[k]].complete {
      assert requested[k] in requested && xs[requested[k]].handle.Some?;
    }
  }

  lemma {:induction false} SomeRecord(xs: seq<Entry>, n: nat, i: nat)
    requires i < n <= |xs| && xs[i].handle.Some?
    ensures RecordsOf(xs, n) != []
  {
    if i < n - 1 {
      SomeRecord(xs, n - 1, i);
    }
  }

  /** What became of the entries: they were fed and finished, if there was need to. */
  ghost predicate Hashed(digest: (nat, seq<byte>) -> seq<byte>, ys: seq<Entry>, xs: seq<Entry>, required: bool,
                         input: nat -> seq<byte>)
  {
    |xs| == |ys| && forall i :: 0 <= i < |ys| ==> xs[i] == HashedEntry(digest, ys[i], i, required, input)
  }

  function HashedEntry(digest: (nat, seq<byte>) -> seq<byte>, y: Entry, i: nat, required: bool,
                       input: nat -> seq<byte>): Entry
  {
    if required then Finished(digest, Next(y, input(i)), i) else y
  }

  lemma OneAnswered(digest: (nat, seq<byte>) -> seq<byte>, known: seq<Entry>, ys: seq<Entry>, xs: seq<Entry>,
                    requested: seq<int>, required: bool, input: nat -> seq<byte>, k: nat)
    requires |known| == ALGORITHMS && k < |requested|
    requires Begun(ys, known, requested, required) && Hashed(digest, ys, xs, required, input)
    ensures 0 <= requested[k] < |xs| && xs[requested[k]].complete
    ensures xs[requested[k]].hash == Answer(digest, known, input, requested[k])
  {
    var a := requested[k];
    assert a in requested;
    assert xs[a] == HashedEntry(digest, ys[a], a, required, input);
    Answered(digest, known[a], a, input(a));
  }

  /** What a file's cache was given, read back by a new context: exactly the requested
      hashes that were not known before, as they were computed. */
  ghost predicate Caches(bytes: seq<byte>, records: seq<Record>, requested: seq<int>,
                         digest: (nat, seq<byte>) -> seq<byte>, known: seq<Entry>, input: nat -> seq<byte>)
    requires |known| == ALGORITHMS
  {
    && StoredAs(bytes, records)
    && forall i :: 0 <= i < ALGORITHMS ==>
         Known(Some(bytes), records)[i]
         == if i in requested && !known[i].complete then Entry(None, true, HashSize(i), digest(i, input(i)))
            else Entry(None, false, 0, [])
  }

  lemma ComputedEntry(digest: (nat, seq<byte>) -> seq<byte>, known: Entry, y: Entry, x: Entry, i: nat, requested: bool,
                      input: seq<byte>)
    requires known.handle.None? && y == Started(known, i, requested) && x == Finished(digest, Next(y, input), i)
    ensures x.handle.Some? <==> requested && !known.complete
    ensures x.handle.Some? ==> x.hash == digest(i, input)
  {
    assert [] + input == input;
  }

  lemma CachesComputed(bytes: seq<byte>, digest: (nat, seq<byte>) -> seq<byte>, known: seq<Entry>, ys: seq<Entry>,
                       xs: seq<Entry>, requested: seq<int>, input: nat -> seq<byte>)
    requires forall i: nat, s :: |digest(i, s)| == HashSize(i)
    requires |known| == ALGORITHMS && Begun(ys, known, requested, true) && Hashed(digest, ys, xs, true, input)
    requires StoredAs(bytes, RecordsOf(xs, |xs|))
    ensures |xs| == ALGORITHMS && Caches(bytes, RecordsOf(xs, ALGORITHMS), requested, digest, known, input)
  {
    forall i | 0 <= i < ALGORITHMS
      ensures xs[i].handle.Some? <==> i in requested && !known[i].complete
      ensures xs[i].handle.Some? ==> xs[i].hash == digest(i, input(i))
    {
      assert xs[i] == HashedEntry(digest, ys[i], i, true, input);
      ComputedEntry(digest, known[i], ys[i], xs[i], i, i in requested, input(i));
    }
    RoundTrip(xs, NewEntries(), ALGORITHMS);
  }

  /** Asked again for hashes that were cached, the answer is what was computed then. */
  lemma AnsweredFromCache(bytes: seq<byte>, records: seq<Record>, requested: seq<int>,
                          digest: (nat, seq<byte>) -> seq<byte>, input: nat -> seq<byte>, again: seq<seq<byte>>,
                          input': nat -> seq<byte>)
    requires Caches(bytes, records, requested, digest, NewEntries(), input)
    requires Answers(again, requested, digest, Known(Some(bytes), records), input')
    ensures forall k :: 0 <= k < |requested| ==>
      0 <= requested[k] < ALGORITHMS && again[k] == digest(requested[k], input(requested[k]))
  {
    forall k | 0 <= k < |requested|
      ensures 0 <= requested[k] < ALGORITHMS && again[k] == digest(requested[k], input(requested[k]))
    {
      assert requested[k] in requested;
    }
  }

  method CopyAnswers(context: HashingContext, requested: seq<int>, ghost known: seq<Entry>, ghost ys: seq<Entry>,
                     ghost required: bool, ghost input: nat -> seq<byte>)
    returns (hashes: seq<seq<byte>>)
    requires |known| == ALGORITHMS && Begun(ys, known, requested, required)
    requires Hashed(context.digest, ys, context.entries[..], required, input)
    ensures Answers(hashes, requested, context.digest, known, input)
  {
    ghost var xs := context.entries[..];
    forall k | 0 <= k < |requested|
      ensures 0 <= requested[k] < ALGORITHMS && xs[requested[k]].complete
      ensures xs[requested[k]].hash == Answer(context.digest, known, input, requested[k])
    {
      OneAnswered(context.digest, known, ys, xs, requested, required, input, k);
    }
    hashes := context.CopyHashes(requested);
  }

  lemma SomethingComputed(digest: (nat, seq<byte>) -> seq<byte>, ys: seq<Entry>, xs: seq<Entry>, known: seq<Entry>,
                          requested: seq<int>, input: nat -> seq<byte>)
    requires |known| == ALGORITHMS && Begun(ys, known, requested, true) && Hashed(digest, ys, xs, true, input)
    ensures |xs| == ALGORITHMS && RecordsOf(xs, ALGORITHMS) != []
  {
    RequiredIff(ys, known, requested);
    var i :| 0 <= i < |ys| && ys[i].handle.Some?;
    assert xs[i] == HashedEntry(digest, ys[i], i, true, input);
    SomeRecord(xs, ALGORITHMS, i);
  }

  /** An Authenticode hash has to be computed. */
  predicate NeedsRegions(known: seq<Entry>, requested: seq<int>)
    requires |known| == ALGORITHMS
  {
    || (SHA1_AUTHENTICODE in requested && !known[SHA1_AUTHENTICODE].complete)
    || (SHA256_AUTHENTICODE in requested && !known[SHA256_AUTHENTICODE].complete)
  }

  /** The part of KphpHashFile that computes the hashes. */
  method HashRequired(context: HashingContext, v: View, optional: Option<nat>, ghost h: Header, ea: bool,
                      consistent: bool, ghost requested: seq<int>, ghost known: seq<Entry>)
    returns (ok: bool, stored: Option<seq<byte>>, ghost records: seq<Record>)
    requires context.entries.Length == ALGORITHMS && context.buffer.Length == BUFFER_SIZE && context.Provided()
    requires |known| == ALGORITHMS && Begun(context.entries[..], known, requested, true)
    requires FoundHeaders(v, optional, h) && context.regions == [UNUSED, UNUSED, UNUSED, UNUSED]
    requires Accepted(v, h) && NeedsRegions(known, requested) ==> Separate(v, h, BUFFER_SIZE)
    modifies context, context.entries, context.buffer
    ensures ok ==>
      Hashed(context.digest, old(context.entries[..]), context.entries[..], true, (a: nat) => Input(v, h, a))
    ensures ok && stored.Some? ==>
      Caches(stored.value, records, requested, context.digest, known, (a: nat) => Input(v, h, a))
    ensures context.healthy ==> ok
    ensures ok ==> (stored.Some? <==> ea && consistent)
  {
    ghost var ys, input := context.entries[..], (a: nat) => Input(v, h, a);
    records := [];
    ok, stored := context.HashMapped(v, optional, h, ea, consistent);
    if !ok {
      return;
    }
    SomethingComputed(context.digest, ys, context.entries[..], known, requested, input);
    if stored.Some? {
      records := RecordsOf(context.entries[..], ALGORITHMS);
      CachesComputed(stored.value, context.digest, known, ys, context.entries[..], requested, input);
    }
  }

  /** KphpHashFile.  The file may have a cache with the records `rs`, mapping it may
      fail, and `ea` and `consistent` tell whether its cache may be written.  When
      `healthy`, neither providers nor reading fail. */
  method HashFile(digest: (nat, seq<byte>) -> seq<byte>, requested: seq<int>, query: Option<seq<byte>>,
                  ghost rs: seq<Record>, mapped: Option<View>, optional: Option<nat>, ghost h: Header, ea: bool,
                  consistent: bool, healthy: bool)
    returns (hashes: Option<seq<seq<byte>>>, stored: Option<seq<byte>>, ghost records: seq<Record>)
    requires forall i: nat, s :: |digest(i, s)| == HashSize(i)
    requires query.Some? ==> |query.value| <= BUFFER_SIZE && Chain(query.value, 0, rs)
    requires mapped.Some? ==> FoundHeaders(mapped.value, optional, h)
    requires mapped.Some? && Accepted(mapped.value, h) && NeedsRegions(Known(query, rs), requested) ==>
      Separate(mapped.value, h, BUFFER_SIZE)
    ensures hashes.Some? && stored.Some? ==>
      && mapped.Some?
      && Caches(stored.value, records, requested, digest, Known(query, rs), (a: nat) => Input(mapped.value, h, a))
    ensures hashes.Some? && mapped.Some? ==>
      Answers(hashes.value, requested, digest, Known(query, rs), (a: nat) => Input(mapped.value, h, a))
    ensures hashes.Some? && mapped.None? ==>
      && Answers(hashes.value, requested, digest, Known(query, rs), (a: nat) => [])
      && forall k :: 0 <= k < |requested| ==> Known(query, rs)[requested[k]].complete
    ensures healthy ==>
      (hashes.Some? <==> ForAlgorithms(requested) && (mapped.Some? || !Needed(Known(query, rs), requested)))
    ensures hashes.Some? ==> (stored.Some? <==> Needed(Known(query, rs), requested) && ea && consistent)
  {
    hashes, stored, records := None, None, [];
    var context, ok, required := NewContext(digest, requested, query, rs, healthy);
    if !ok {
      return;
    }
    ghost var ys := context.entries[..];
    ghost var input: nat -> seq<byte> := if mapped.Some? then (a: nat) => Input(mapped.value, h, a) else (a: nat) => [];
    if required {
      if mapped.None? {
        return;
      }
      ok, stored, records := HashRequired(context, mapped.value, optional, h, ea, consistent, requested,
                                          Known(query, rs));
      if !ok {
        return;
      }
    }
    var copied := CopyAnswers(context, requested, Known(query, rs), ys, required, input);
    hashes := Some(copied);
  }

  function InformationInput(v: View, h: Header): seq<byte>
    requires Accepted(v, h)
  {
    RegionWalk(v, Active(Regions(v, h)), BUFFER_SIZE, |Active(Regions(v, h))|)
  }

  lemma InformationInputMeaning(v: View, h: Header)
    requires HeadersMapped(v, h) && Accepted(v, h)
    ensures var rs := Active(Regions(v, h));
      Behind(v, h) || Small(v, h) || !StaysInside(v, rs) ==>
        (StaysInside(v, rs) && InformationInput(v, h) == Ungapped(v, h)
         <==> Behind(v, h) && forall i :: 0 <= i < |rs| ==> !Cut(rs, i))
  {
    InformationWalk(v, h, BUFFER_SIZE);
  }

  /** Both functions compute their Authenticode hashes of the bytes of the image hash if
      and only if the certificates come behind the headers, no part begins at an unlucky
      place, and every part has less than 2^32 bytes. */
  lemma InputsAgree(v: View, h: Header, a: nat)
    requires HeadersMapped(v, h) && Accepted(v, h) && Separate(v, h, BUFFER_SIZE) && IsAuthenticode(a)
    requires !MayAgree(v, h, BUFFER_SIZE) || Directory(h) + 8 < SecurityBase(v, h) + 0x1_0000_0000
    ensures var rs := Active(Regions(v, h));
      StaysInside(v, rs) && Input(v, h, a) == InformationInput(v, h) == Ungapped(v, h)
      <==> Behind(v, h) && Lucky(v, h, BUFFER_SIZE) && forall i :: 0 <= i < |rs| ==> !Cut(rs, i)
  {
    InputMeaning(v, h, a);
    InformationInputMeaning(v, h);
    if MayAgree(v, h, BUFFER_SIZE) {
      LeavesMapping(v, h);
    }
  }

  /** The bytes of the certificates, if there are any. */
  function Certificates(v: View, h: Header): seq<byte>
    requires h.Image?
  {
    if Signed(h) then Bytes(v, SecurityBase(v, h), SecurityEnd(v, h)) else []
  }

  /** The walk region by region can get through: the certificates come behind the
      headers, or the mapping has at least 2^32 bytes. */
  predicate InMapping(v: View, h: Header)
    requires h.Image?
  {
    Behind(v, h) || |v.data| >= 0x1_0000_0000
  }

  predicate AuthenticodeKnown(known: seq<Entry>)
    requires |known| == ALGORITHMS
  {
    known[SHA1_AUTHENTICODE].complete && known[SHA256_AUTHENTICODE].complete
  }

  /** KphGetAuthenticodeInformation: both hashes of an image, and its certificates. */
  method GetAuthenticodeInformation(digest: (nat, seq<byte>) -> seq<byte>, query: Option<seq<byte>>,
                                    ghost rs: seq<Record>, mapped: Option<View>, optional: Option<nat>, ghost h: Header,
                                    ea: bool, consistent: bool, healthy: bool)
    returns (hashes: Option<seq<seq<byte>>>, signature: seq<byte>)
    requires forall i: nat, s :: |digest(i, s)| == HashSize(i)
    requires query.Some? ==> |query.value| <= BUFFER_SIZE && Chain(query.value, 0, rs)
    requires mapped.Some? ==> FoundHeaders(mapped.value, optional, h)
    ensures hashes.Some? ==>
      && mapped.Some? && Accepted(mapped.value, h)
      && Answers(hashes.value, [SHA1_AUTHENTICODE, SHA256_AUTHENTICODE], digest, Known(query, rs),
                 (a: nat) => InformationInput(mapped.value, h))
      && (InMapping(mapped.value, h) || AuthenticodeKnown(Known(query, rs)))
      && signature == Certificates(mapped.value, h)
    ensures healthy ==>
      (hashes.Some? <==>
        && mapped.Some? && Accepted(mapped.value, h)
        && (AuthenticodeKnown(Known(query, rs)) || StaysInside(mapped.value, Active(Regions(mapped.value, h)))))
  {
    hashes, signature := None, [];
    var requested: seq<int> := [SHA1_AUTHENTICODE, SHA256_AUTHENTICODE];
    var context, ok, required := NewContext(digest, requested, query, rs, healthy);
    if ok && mapped.Some? {
      hashes := HashImage(context, mapped.value, optional, h, requested, required, ea, consistent, Known(query, rs));
      if hashes.Some? && context.securityBase != 0 {
        var from := context.securityBase - mapped.value.base;
        signature := mapped.value.data[from..from + context.securitySize];
      }
    }
  }

  lemma BegunAuthenticode(xs: seq<Entry>, known: seq<Entry>, required: bool)
    requires |known| == ALGORITHMS && Begun(xs, known, [SHA1_AUTHENTICODE, SHA256_AUTHENTICODE], required)
    ensures OnlyAuthenticode(xs)
    ensures required <==> !AuthenticodeKnown(known)
  {
  }

  /** The part of KphGetAuthenticodeInformation that computes the hashes. */
  method HashImage(context: HashingContext, v: View, optional: Option<nat>, ghost h: Header, requested: seq<int>,
                   required: bool, ea: bool, consistent: bool, ghost known: seq<Entry>)
    returns (hashes: Option<seq<seq<byte>>>)
    requires context.entries.Length == ALGORITHMS && context.buffer.Length == BUFFER_SIZE && context.Provided()
    requires FoundHeaders(v, optional, h)
    requires requested == [SHA1_AUTHENTICODE, SHA256_AUTHENTICODE]
    requires |known| == ALGORITHMS && Begun(context.entries[..], known, requested, required)
    modifies context, context.entries, context.buffer
    ensures hashes.Some? ==>
      Accepted(v, h) && Answers(hashes.value, requested, context.digest, known, (a: nat) => InformationInput(v, h))
    ensures hashes.Some? ==> Accepted(v, h) && (InMapping(v, h) || AuthenticodeKnown(known))
    ensures hashes.Some? && Signed(h) ==> context.securityBase == SecurityBase(v, h) && context.securitySize == h.size
    ensures hashes.Some? && !Signed(h) ==> context.securityBase == 0
    ensures context.healthy ==>
      (hashes.Some? <==> Accepted(v, h) && (AuthenticodeKnown(known) || StaysInside(v, Active(Regions(v, h)))))
  {
    hashes := None;
    var ok := context.InitializeAuthenticode(v, optional, h);
    if !ok {
      return;
    }
    ghost var ys := context.entries[..];
    ghost var input: nat -> seq<byte> := (a: nat) => InformationInput(v, h);
    BegunAuthenticode(ys, known, required);
    if required {
      ok := context.HashInformation(v, h, ea, consistent);
      if !ok {
        return;
      }
      if |v.data| < 0x1_0000_0000 {
        StaysInsideIff(v, h);
      }
    }
    var copied := CopyAnswers(context, requested, known, ys, required, input);
    hashes := Some(copied);
  }
}
