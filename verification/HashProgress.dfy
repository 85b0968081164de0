/**
 What reading a file chunk by chunk makes of the hashes in progress.
 */
module HashProgress {
  import opened EaRecords
  import opened HashCache
  import opened HashRegions
  import opened Wrappers

  const SHA1_AUTHENTICODE: nat := 2
  const SHA256_AUTHENTICODE: nat := 4

  predicate IsAuthenticode(i: nat) {
    i == SHA1_AUTHENTICODE || i == SHA256_AUTHENTICODE
  }

  /** What a chunk adds to the hash of an algorithm. */
  function Adds(v: View, rs: seq<Region>, i: nat, u: nat, e: nat): seq<byte> {
    if IsAuthenticode(i) then ChunkFed(v, Active(rs), u, e) else Bytes(v, u, e)
  }

  predicate InProgress(x: Entry) {
    x.handle.Some? && !x.complete
  }

  function Absorbing(x: Entry, more: seq<byte>): Entry
    requires x.handle.Some?
  {
    x.(handle := Some(x.handle.value + more))
  }

  /** The bounds that the code computes for a region, if they are in order. */
  lemma Bounds(v: View, r: Region, u: nat, e: nat, start: nat, end: nat)
    requires v.base <= u < e <= End(v) && InOrder(r, u, e)
    requires start == if r.start <= u < r.end then u else if u <= r.start < e then r.start else 0
    requires end == if r.start <= e < r.end then e else if u <= r.end < e then r.end else 0
    requires u > 0 && r.start > 0
    ensures start == 0 && end == 0 ==> Fed(v, r, u, e) == []
    ensures var a, b := if start == 0 then u else start, if end == 0 then e else end;
      start != 0 || end != 0 ==> u <= a <= b <= e && Fed(v, r, u, e) == Bytes(v, a, b)
  {
  }

  /** The entries after a chunk. */
  ghost predicate Advanced(v: View, rs: seq<Region>, xs: seq<Entry>, xs': seq<Entry>, u: nat, e: nat) {
    |xs'| == |xs| && forall i :: 0 <= i < |xs| ==> xs'[i] == Next(xs[i], Adds(v, rs, i, u, e))
  }

  function Next(x: Entry, more: seq<byte>): Entry {
    if InProgress(x) then Absorbing(x, more) else x
  }

  /** What the walk over the file from u on adds to the hash of an algorithm. */
  function AddsFrom(v: View, rs: seq<Region>, i: nat, c: nat, u: nat): seq<byte>
    requires c > 0
  {
    if IsAuthenticode(i) then Walk(v, Active(rs), c, u, End(v)) else Bytes(v, u, End(v))
  }

  lemma AddsChunk(v: View, rs: seq<Region>, i: nat, c: nat, u: nat)
    requires c > 0 && v.base <= u < End(v)
    ensures var m := Min(u + c, End(v)); AddsFrom(v, rs, i, c, u) == Adds(v, rs, i, u, m) + AddsFrom(v, rs, i, c, m)
  {
  }

  /** The progress of a hash: what it has absorbed and what is to come make up
      what it had absorbed before and what was to come then. */
  predicate OnWay(x: Entry, before: Entry, toCome: seq<byte>, all: seq<byte>) {
    if InProgress(before) then
      && InProgress(x) && x.length == before.length && x.hash == before.hash
      && x.handle.value + toCome == before.handle.value + all
    else x == before
  }

  lemma AbsorbNothing(x: Entry)
    requires x.handle.Some?
    ensures Absorbing(x, []) == x
  {
    assert x.handle.value + [] == x.handle.value;
  }

  /** Nothing is to come. */
  lemma Arrived(x: Entry, before: Entry, all: seq<byte>)
    requires OnWay(x, before, [], all)
    ensures x == Next(before, all)
  {
    if InProgress(before) {
      assert x.handle.value + [] == x.handle.value;
    }
  }

  lemma OneChunkOn(x: Entry, x': Entry, before: Entry, chunk: seq<byte>, toCome: seq<byte>, all: seq<byte>)
    requires OnWay(x, before, chunk + toCome, all)
    requires x' == Next(x, chunk)
    ensures OnWay(x', before, toCome, all)
  {
  }

  ghost predicate AllOnWay(xs: seq<Entry>, before: seq<Entry>, v: View, rs: seq<Region>, c: nat, u: nat)
    requires c > 0
  {
    && |xs| == |before|
    && forall i :: 0 <= i < |xs| ==> OnWay(xs[i], before[i], AddsFrom(v, rs, i, c, u), AddsFrom(v, rs, i, c, v.base))
  }

  lemma AllStart(xs: seq<Entry>, v: View, rs: seq<Region>, c: nat)
    requires c > 0
    ensures AllOnWay(xs, xs, v, rs, c, v.base)
  {
  }

  lemma AllOneChunkOn(xs: seq<Entry>, xs': seq<Entry>, before: seq<Entry>, v: View, rs: seq<Region>, c: nat,
                      u: nat, m: nat)
    requires c > 0 && AllOnWay(xs, before, v, rs, c, u) && v.base <= u < End(v) && m == Min(u + c, End(v))
    requires Advanced(v, rs, xs, xs', u, m)
    ensures AllOnWay(xs', before, v, rs, c, m)
  {
    forall i | 0 <= i < |xs|
      ensures OnWay(xs'[i], before[i], AddsFrom(v, rs, i, c, m), AddsFrom(v, rs, i, c, v.base))
    {
      AddsChunk(v, rs, i, c, u);
      OneChunkOn(xs[i], xs'[i], before[i], Adds(v, rs, i, u, m), AddsFrom(v, rs, i, c, m),
                 AddsFrom(v, rs, i, c, v.base));
    }
  }

  lemma AllArrived(xs: seq<Entry>, before: seq<Entry>, v: View, rs: seq<Region>, c: nat)
    requires c > 0 && AllOnWay(xs, before, v, rs, c, End(v))
    ensures |xs| == |before| && forall i :: 0 <= i < |xs| ==> xs[i] == Next(before[i], AddsFrom(v, rs, i, c, v.base))
  {
    forall i | 0 <= i < |xs| ensures xs[i] == Next(before[i], AddsFrom(v, rs, i, c, v.base)) {
      assert AddsFrom(v, rs, i, c, End(v)) == [];
      Arrived(xs[i], before[i], AddsFrom(v, rs, i, c, v.base));
    }
  }

  lemma AbsorbTwice(x: Entry, a: seq<byte>, b: seq<byte>)
    requires x.handle.Some?
    ensures Absorbing(Absorbing(x, a), b) == Absorbing(x, a + b)
  {
    assert (x.handle.value + a) + b == x.handle.value + (a + b);
  }

  lemma OneMoreRegion(v: View, rs: seq<Region>, k: nat, u: nat, e: nat)
    requires k < |rs|
    ensures ChunkFed(v, rs[..k + 1], u, e) == ChunkFed(v, rs[..k], u, e) + Fed(v, rs[k], u, e)
  {
    assert rs[..k + 1][..k] == rs[..k];
  }

  lemma Copied(v: View, buffer: seq<byte>, u: nat, length: nat, start: nat, end: nat)
    requires length <= |buffer| && v.base <= u && u + length <= End(v) && buffer[..length] == Bytes(v, u, u + length)
    requires u <= start <= end <= u + length
    ensures buffer[start - u..end - u] == Bytes(v, start, end)
  {
    assert buffer[start - u..end - u] == buffer[..length][start - u..end - u];
    Slices(v.data, u - v.base, u + length - v.base, start - u, end - u);
  }

  lemma Slices(s: seq<byte>, a: nat, b: nat, c: nat, d: nat)
    requires a <= b <= |s| && c <= d <= b - a
    ensures s[a..b][c..d] == s[a + c..a + d]
  {
    forall i | 0 <= i < d - c ensures s[a..b][c..d][i] == s[a + c..a + d][i] {
      assert s[a..b][c + i] == s[a + c + i];
    }
  }

  /** What BCryptFinishHash leaves in an entry. */
  function Finished(digest: (nat, seq<byte>) -> seq<byte>, x: Entry, i: nat): Entry {
    if x.handle.Some? then x.(hash := digest(i, x.handle.value), complete := true) else x
  }

  /** The records in the buffer, the last of them at `at`, and their length. */
  predicate Written(b: seq<byte>, rs: seq<Record>, at: nat, length: nat) {
    && Laid(b, 0, rs) && length == Total(rs)
    && if rs == [] then at == 0 && |b| >= 4 && Ulong(b, 0) == 0 else at == Total(rs[..|rs| - 1])
  }

  /** The state of KphpFinishHashes before entry i. */
  predicate Progress(ea: bool, b: seq<byte>, xs: seq<Entry>, i: nat, at: nat, length: nat)
    requires i <= |xs|
  {
    if ea then Written(b, RecordsOf(xs, i), at, length) && length <= Bound(i) else length == 0
  }

  lemma SomeLength(rs: seq<Record>)
    ensures Total(rs) == 0 <==> rs == []
  {
  }

  /** A chain of records within the bound. */
  predicate StoredAs(b: seq<byte>, rs: seq<Record>) {
    Chain(b, 0, rs) && |b| == Total(rs) <= Bound(ALGORITHMS)
  }

  /** A hash is begun for a requested algorithm that is not known from the cache. */
  function Started(x: Entry, i: nat, requested: bool): Entry {
    if requested && !x.complete && x.handle.None? then x.(length := HashSize(i), handle := Some([])) else x
  }

  /** The progress of the hashes in the walk from start to e, at u. */
  ghost predicate RangeOnWay(xs: seq<Entry>, before: seq<Entry>, v: View, rs: seq<Region>, c: nat,
                             start: nat, u: nat, e: nat)
    requires c > 0
  {
    && |xs| == |before|
    && forall i :: 0 <= i < |xs| ==>
         OnWay(xs[i], before[i], Walk(v, Active(rs), c, u, e), Walk(v, Active(rs), c, start, e))
  }

  lemma RangeChunkOn(xs: seq<Entry>, xs': seq<Entry>, before: seq<Entry>, v: View, rs: seq<Region>, c: nat,
                     start: nat, u: nat, m: nat, e: nat)
    requires forall i :: 0 <= i < |before| && InProgress(before[i]) ==> IsAuthenticode(i)
    requires c > 0 && u < e && m == Min(u + c, e) && RangeOnWay(xs, before, v, rs, c, start, u, e)
    requires Advanced(v, rs, xs, xs', u, m)
    ensures RangeOnWay(xs', before, v, rs, c, start, m, e)
  {
  }

  lemma RangeArrived(xs: seq<Entry>, before: seq<Entry>, v: View, rs: seq<Region>, c: nat, start: nat, e: nat)
    requires c > 0 && RangeOnWay(xs, before, v, rs, c, start, e, e)
    ensures AllNext(before, xs, Walk(v, Active(rs), c, start, e))
  {
    forall i | 0 <= i < |xs| ensures xs[i] == Next(before[i], Walk(v, Active(rs), c, start, e)) {
      Arrived(xs[i], before[i], Walk(v, Active(rs), c, start, e));
    }
  }

  /** All hashes in progress have absorbed the same bytes. */
  ghost predicate AllNext(xs: seq<Entry>, xs': seq<Entry>, more: seq<byte>) {
    |xs'| == |xs| && forall i :: 0 <= i < |xs| ==> xs'[i] == Next(xs[i], more)
  }

  lemma AllNothing(xs: seq<Entry>)
    ensures AllNext(xs, xs, [])
  {
    forall i | 0 <= i < |xs| ensures xs[i] == Next(xs[i], []) {
      if InProgress(xs[i]) {
        AbsorbNothing(xs[i]);
      }
    }
  }

  lemma AllNextTwice(xs: seq<Entry>, ys: seq<Entry>, zs: seq<Entry>, a: seq<byte>, b: seq<byte>)
    requires AllNext(xs, ys, a) && AllNext(ys, zs, b)
    ensures AllNext(xs, zs, a + b)
  {
    forall i | 0 <= i < |xs| ensures zs[i] == Next(xs[i], a + b) {
      if InProgress(xs[i]) {
        AbsorbTwice(xs[i], a, b);
      }
    }
  }

  lemma {:induction false} ActiveLength(rs: seq<Region>)
    ensures |Active(rs)| <= |rs| && Active(rs) == rs[..|Active(rs)|]
    ensures forall i :: 0 <= i < |Active(rs)| ==> rs[i].start != 0
    ensures |Active(rs)| < |rs| ==> rs[|Active(rs)|].start == 0
  {
    if rs != [] && rs[0].start != 0 {
      ActiveLength(rs[1..]);
    }
  }
}
