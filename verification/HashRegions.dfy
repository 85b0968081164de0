/**
 Which bytes of a mapped file reach an Authenticode hash.

 A PE image hash leaves out parts of the file ("Calculating the PE Image Hash" of
 Microsoft's "Windows Authenticode Portable Executable Signature Format"); the
 parts that remain are regions, given by addresses.  The code reads chunks and
 intersects each with the regions.
 */
module HashRegions {
  import opened Division

  newtype byte = x: int | 0 <= x < 256

  /** A region of the mapping; it is not in use if it starts at NULL. */
  datatype Region = Region(start: nat, end: nat)

  /** A file mapped at an address. */
  datatype View = View(base: nat, data: seq<byte>)

  function End(v: View): nat {
    v.base + |v.data|
  }

  /** The bytes mapped from a up to b. */
  function Bytes(v: View, a: nat, b: nat): seq<byte> {
    if v.base <= a <= b <= End(v) then v.data[a - v.base..b - v.base] else []
  }

  function Max(a: nat, b: nat): nat {
    if a < b then b else a
  }

  function Min(a: nat, b: nat): nat {
    if a < b then a else b
  }

  /** The part of a region in the chunk from u to e. */
  function Part(v: View, r: Region, u: nat, e: nat): seq<byte> {
    Bytes(v, Max(u, r.start), Min(e, r.end))
  }

  /** The chunk ends where a region that is not empty starts. */
  predicate Touches(r: Region, e: nat) {
    r.start == e < r.end
  }

  /** What the code feeds for one region: the part in the chunk, but the whole
      chunk if the region starts where the chunk ends.  A region that ends before it
      starts is fed up to its end, where that is in the chunk, and from its start. */
  function Fed(v: View, r: Region, u: nat, e: nat): seq<byte> {
    if r.end < r.start then FedBackward(v, r, u, e)
    else if Touches(r, e) then Bytes(v, u, e)
    else Part(v, r, u, e)
  }

  function FedBackward(v: View, r: Region, u: nat, e: nat): seq<byte> {
    if u <= r.start < e then Bytes(v, r.start, e)
    else if u <= r.end < e then Bytes(v, u, r.end)
    else []
  }

  /** The bounds that the code computes for a region and a chunk are in order, as it
      asserts. */
  predicate InOrder(r: Region, u: nat, e: nat) {
    r.end < r.start ==> !(u <= r.end && r.start < e)
  }

  ghost predicate Asserted(rs: seq<Region>, u: nat, e: nat) {
    forall i :: 0 <= i < |rs| ==> InOrder(rs[i], u, e)
  }

  /** So are those for all chunks from u up to e. */
  ghost predicate AssertedWalk(rs: seq<Region>, c: nat, u: nat, e: nat)
    requires c > 0
    decreases if u < e then e - u else 0
  {
    u < e ==> Asserted(rs, u, Min(u + c, e)) && AssertedWalk(rs, c, Min(u + c, e), e)
  }

  /** The regions before the first unused one. */
  function Active(rs: seq<Region>): seq<Region> {
    if rs == [] || rs[0].start == 0 then [] else [rs[0]] + Active(rs[1..])
  }

  lemma {:induction false} ActivePrefix(rs: seq<Region>, n: nat)
    requires n <= |rs| && (forall i :: 0 <= i < n ==> rs[i].start != 0) && (n < |rs| ==> rs[n].start == 0)
    ensures Active(rs) == rs[..n]
  {
    if n > 0 {
      ActivePrefix(rs[1..], n - 1);
      assert rs[..n] == [rs[0]] + rs[1..][..n - 1];
    }
  }

  /** What the code feeds for a chunk. */
  function ChunkFed(v: View, rs: seq<Region>, u: nat, e: nat): seq<byte> {
    if rs == [] then [] else ChunkFed(v, rs[..|rs| - 1], u, e) + Fed(v, rs[|rs| - 1], u, e)
  }

  /** The bytes of all regions from u up to e. */
  function Covered(v: View, rs: seq<Region>, u: nat, e: nat): seq<byte> {
    if rs == [] then [] else Covered(v, rs[..|rs| - 1], u, e) + Part(v, rs[|rs| - 1], u, e)
  }

  /** The definition of the image hash input: the regions, one after the other. */
  function Concatenated(v: View, rs: seq<Region>): seq<byte> {
    if rs == [] then [] else Concatenated(v, rs[..|rs| - 1]) + Bytes(v, rs[|rs| - 1].start, rs[|rs| - 1].end)
  }

  /** Regions lie in the mapping, in ascending order, without overlap. */
  ghost predicate Ordered(v: View, rs: seq<Region>) {
    && (forall i :: 0 <= i < |rs| ==> v.base <= rs[i].start <= rs[i].end <= End(v))
    && (forall i, j :: 0 <= i < j < |rs| ==> rs[i].end <= rs[j].start)
  }

  lemma OrderedPrefix(v: View, rs: seq<Region>)
    requires Ordered(v, rs) && rs != []
    ensures Ordered(v, rs[..|rs| - 1])
  {
  }

  /** Whatever lies before u is not covered from u on. */
  lemma {:induction false} NotCovered(v: View, rs: seq<Region>, u: nat, e: nat)
    requires Ordered(v, rs) && forall i :: 0 <= i < |rs| ==> rs[i].end <= u
    ensures Covered(v, rs, u, e) == []
  {
    if rs != [] {
      OrderedPrefix(v, rs);
      NotCovered(v, rs[..|rs| - 1], u, e);
      PartBefore(v, rs[|rs| - 1], u, e);
    }
  }

  lemma PartBefore(v: View, r: Region, u: nat, e: nat)
    requires r.end <= u
    ensures Part(v, r, u, e) == []
  {
  }

  lemma PartSplits(v: View, r: Region, u: nat, m: nat, e: nat)
    requires v.base <= u <= m <= e <= End(v) && v.base <= r.start <= r.end <= End(v)
    ensures Part(v, r, u, e) == Part(v, r, u, m) + Part(v, r, m, e)
  {
  }

  /** Chunks may be taken one after the other. */
  lemma {:induction false} CoveredSplits(v: View, rs: seq<Region>, u: nat, m: nat, e: nat)
    requires Ordered(v, rs) && v.base <= u <= m <= e <= End(v)
    ensures Covered(v, rs, u, e) == Covered(v, rs, u, m) + Covered(v, rs, m, e)
  {
    if rs != [] {
      var n := |rs| - 1;
      OrderedPrefix(v, rs);
      CoveredSplits(v, rs[..n], u, m, e);
      PartSplits(v, rs[n], u, m, e);
      EarlierFirst(v, rs, u, m, e);
      Swap(Covered(v, rs[..n], u, m), Covered(v, rs[..n], m, e), Part(v, rs[n], u, m), Part(v, rs[n], m, e));
    }
  }

  /** Either the last region has not begun at m, or the others have ended there. */
  lemma EarlierFirst(v: View, rs: seq<Region>, u: nat, m: nat, e: nat)
    requires Ordered(v, rs) && rs != []
    ensures Covered(v, rs[..|rs| - 1], m, e) == [] || Part(v, rs[|rs| - 1], u, m) == []
  {
    var n := |rs| - 1;
    if rs[n].start < m {
      OrderedPrefix(v, rs);
      NotCovered(v, rs[..n], m, e);
    }
  }

  lemma Swap(a: seq<byte>, b: seq<byte>, x: seq<byte>, y: seq<byte>)
    requires b == [] || x == []
    ensures (a + b) + (x + y) == (a + x) + (b + y)
  {
  }

  lemma PartWhole(v: View, r: Region)
    requires v.base <= r.start <= r.end <= End(v)
    ensures Part(v, r, v.base, End(v)) == Bytes(v, r.start, r.end)
  {
  }

  lemma {:induction false} AllCovered(v: View, rs: seq<Region>)
    requires Ordered(v, rs)
    ensures Covered(v, rs, v.base, End(v)) == Concatenated(v, rs)
  {
    if rs != [] {
      OrderedPrefix(v, rs);
      AllCovered(v, rs[..|rs| - 1]);
      PartWhole(v, rs[|rs| - 1]);
    }
  }

  /** Some region in use starts at e. */
  ghost predicate Touched(rs: seq<Region>, e: nat) {
    exists i :: 0 <= i < |rs| && Touches(rs[i], e)
  }

  /** A chunk is fed as it should be, unless a region starts where it ends; then
      more is fed. */
  lemma {:induction false} ChunkRight(v: View, rs: seq<Region>, u: nat, e: nat)
    requires Ordered(v, rs) && v.base <= u < e <= End(v)
    ensures !Touched(rs, e) ==> ChunkFed(v, rs, u, e) == Covered(v, rs, u, e)
    ensures Touched(rs, e) ==> |ChunkFed(v, rs, u, e)| > |Covered(v, rs, u, e)|
  {
    if rs != [] {
      var n := |rs| - 1;
      OrderedPrefix(v, rs);
      ChunkRight(v, rs[..n], u, e);
      LastTouched(rs, e);
    }
  }

  lemma LastTouched(rs: seq<Region>, e: nat)
    requires rs != []
    ensures Touched(rs, e) <==> Touched(rs[..|rs| - 1], e) || Touches(rs[|rs| - 1], e)
  {
  }

  /** What is fed from u up to e, in chunks of at most c bytes. */
  function Walk(v: View, rs: seq<Region>, c: nat, u: nat, e: nat): seq<byte>
    requires c > 0
    decreases if u < e then e - u else 0
  {
    if u >= e then [] else ChunkFed(v, rs, u, Min(u + c, e)) + Walk(v, rs, c, Min(u + c, e), e)
  }

  lemma WalkStep(v: View, rs: seq<Region>, c: nat, u: nat, e: nat, m: nat)
    requires c > 0 && u < e && m == Min(u + c, e)
    ensures Walk(v, rs, c, u, e) == ChunkFed(v, rs, u, m) + Walk(v, rs, c, m, e)
  {
  }

  /** A full number of chunks lies between u and x. */
  predicate Hits(c: nat, u: nat, x: nat)
    requires c > 0
  {
    u < x && Rem(x - u, c) == 0
  }

  /** A region that is not empty starts where a chunk ends. */
  ghost predicate AnyHit(rs: seq<Region>, c: nat, u: nat)
    requires c > 0
  {
    exists i :: 0 <= i < |rs| && rs[i].start < rs[i].end && Hits(c, u, rs[i].start)
  }

  lemma HitNow(c: nat, u: nat, e: nat, x: nat)
    requires c > 0 && u < e && x < e
    ensures var m := Min(u + c, e); Hits(c, u, x) <==> x == m || Hits(c, m, x)
  {
    if u < x && x - u >= c {
      assert x - u - c == x - (u + c);
      assert Rem(x - u, c) == Rem(x - (u + c), c);
      assert x == u + c ==> Rem(x - (u + c), c) == 0;
    }
  }

  lemma AnyHitNow(v: View, rs: seq<Region>, c: nat, u: nat)
    requires c > 0 && Ordered(v, rs) && v.base <= u < End(v)
    ensures var m := Min(u + c, End(v)); AnyHit(rs, c, u) <==> Touched(rs, m) || AnyHit(rs, c, m)
  {
    var e := End(v);
    var m := Min(u + c, e);
    if AnyHit(rs, c, u) {
      var i :| 0 <= i < |rs| && rs[i].start < rs[i].end && Hits(c, u, rs[i].start);
      HitNow(c, u, e, rs[i].start);
      assert Touches(rs[i], m) || Hits(c, m, rs[i].start);
    }
    if Touched(rs, m) {
      var i :| 0 <= i < |rs| && Touches(rs[i], m);
      HitNow(c, u, e, rs[i].start);
      assert Hits(c, u, rs[i].start);
    }
    if AnyHit(rs, c, m) {
      var i :| 0 <= i < |rs| && rs[i].start < rs[i].end && Hits(c, m, rs[i].start);
      HitNow(c, u, e, rs[i].start);
      assert Hits(c, u, rs[i].start);
    }
  }

  lemma {:induction false} WalkRight(v: View, rs: seq<Region>, c: nat, u: nat)
    requires c > 0 && Ordered(v, rs) && v.base <= u <= End(v)
    ensures !AnyHit(rs, c, u) ==> Walk(v, rs, c, u, End(v)) == Covered(v, rs, u, End(v))
    ensures AnyHit(rs, c, u) ==> |Walk(v, rs, c, u, End(v))| > |Covered(v, rs, u, End(v))|
    ensures |Walk(v, rs, c, u, End(v))| >= |Covered(v, rs, u, End(v))|
    decreases End(v) - u
  {
    if u == End(v) {
      NotCovered(v, rs, u, u);
      assert !AnyHit(rs, c, u);
    } else {
      var m := Min(u + c, End(v));
      WalkRight(v, rs, c, m);
      CoveredSplits(v, rs, u, m, End(v));
      ChunkRight(v, rs, u, m);
      AnyHitNow(v, rs, c, u);
    }
  }

  /** The walk over the whole file feeds the concatenated regions if and only if no
      region that is not empty starts where a chunk ends. */
  lemma WholeFileWalk(v: View, rs: seq<Region>, c: nat)
    requires c > 0 && Ordered(v, rs)
    ensures Walk(v, rs, c, v.base, End(v)) == Concatenated(v, rs) <==> !AnyHit(rs, c, v.base)
  {
    WalkRight(v, rs, c, v.base);
    AllCovered(v, rs);
  }

  /** That is, at a multiple of the chunk size other than zero. */
  lemma HitsMeaning(c: nat, u: nat, x: nat)
    requires c > 0
    ensures Hits(c, u, x) <==> u < x && (x - u) % c == 0
  {
    if u < x {
      Operators(x - u, 0, c);
    }
  }

  /** The length of a region as the code computes it, in 32 bits. */
  function Length32(r: Region): nat {
    (r.end - r.start) % 0x1_0000_0000
  }

  /** What the walk over one region feeds. */
  function OneFed(v: View, rs: seq<Region>, c: nat, r: Region): seq<byte>
    requires c > 0
  {
    Walk(v, rs, c, r.start, r.start + Length32(r))
  }

  /** What the walk over the first n regions feeds; every chunk is intersected with
      all regions again. */
  function RegionWalk(v: View, rs: seq<Region>, c: nat, n: nat): seq<byte>
    requires c > 0 && n <= |rs|
  {
    if n == 0 then [] else RegionWalk(v, rs, c, n - 1) + OneFed(v, rs, c, rs[n - 1])
  }

  /** A region that is not empty starts where this one, not empty either, ends. */
  ghost predicate Adjoins(rs: seq<Region>, i: nat)
    requires i < |rs|
  {
    rs[i].start < rs[i].end && Touched(rs, rs[i].end)
  }

  lemma {:induction false} Inside(v: View, rs: seq<Region>, i: nat, u: nat, e: nat)
    requires Ordered(v, rs) && i < |rs| && rs[i].start <= u <= e <= rs[i].end
    ensures Covered(v, rs, u, e) == Bytes(v, u, e)
  {
    var n := |rs| - 1;
    OrderedPrefix(v, rs);
    if i == n {
      NotCovered(v, rs[..n], u, e);
      assert Part(v, rs[n], u, e) == Bytes(v, u, e);
    } else {
      Inside(v, rs[..n], i, u, e);
      assert Part(v, rs[n], u, e) == [];
    }
  }

  /** A chunk that is fed too much is fed at most twice. */
  lemma {:induction false} ChunkAtMost(v: View, rs: seq<Region>, u: nat, e: nat)
    requires Ordered(v, rs) && v.base <= u < e <= End(v)
    ensures |ChunkFed(v, rs, u, e)| <= |Covered(v, rs, u, e)| + e - u
  {
    if rs != [] {
      var n := |rs| - 1;
      OrderedPrefix(v, rs);
      ChunkAtMost(v, rs[..n], u, e);
      if Touches(rs[n], e) {
        assert !Touched(rs[..n], e);
        ChunkRight(v, rs[..n], u, e);
      }
    }
  }

  /** Within a region, only its end can be where another one starts. */
  lemma TouchedInside(v: View, rs: seq<Region>, i: nat, e: nat)
    requires Ordered(v, rs) && i < |rs| && rs[i].start < e <= rs[i].end && Touched(rs, e)
    ensures e == rs[i].end
  {
  }

  /** What a chunk within a region feeds. */
  lemma ChunkInside(v: View, rs: seq<Region>, i: nat, u: nat, e: nat)
    requires Ordered(v, rs) && i < |rs| && rs[i].start <= u < e <= rs[i].end
    ensures !Touched(rs, e) ==> ChunkFed(v, rs, u, e) == Bytes(v, u, e)
    ensures Touched(rs, e) ==> e - u < |ChunkFed(v, rs, u, e)| <= (e - u) + (e - u) && e == rs[i].end
  {
    Inside(v, rs, i, u, e);
    ChunkRight(v, rs, u, e);
    ChunkAtMost(v, rs, u, e);
    if Touched(rs, e) {
      TouchedInside(v, rs, i, e);
    }
  }

  lemma BytesSplit(v: View, u: nat, m: nat, e: nat)
    requires v.base <= u <= m <= e <= End(v)
    ensures Bytes(v, u, e) == Bytes(v, u, m) + Bytes(v, m, e) && |Bytes(v, u, e)| == e - u
  {
  }

  /** What the walk over one region feeds. */
  lemma {:induction false} InsideWalk(v: View, rs: seq<Region>, c: nat, i: nat, u: nat, e: nat)
    requires c > 0 && Ordered(v, rs) && i < |rs| && rs[i].start <= u <= e <= rs[i].end
    ensures u == e || !Touched(rs, e) ==> Walk(v, rs, c, u, e) == Bytes(v, u, e)
    ensures u < e && Touched(rs, e) ==> e - u < |Walk(v, rs, c, u, e)| <= e - u + c
    decreases e - u
  {
    if u < e {
      var m := Min(u + c, e);
      ChunkInside(v, rs, i, u, m);
      WalkStep(v, rs, c, u, e, m);
      if m < e {
        InsideWalk(v, rs, c, i, m, e);
        BytesSplit(v, u, m, e);
        BytesSplit(v, u, u, m);
      } else {
        assert Walk(v, rs, c, m, e) == [];
        assert ChunkFed(v, rs, u, m) + [] == ChunkFed(v, rs, u, m);
      }
    }
  }

  /** Fewer than 2^32 bytes, and nothing right behind. */
  ghost predicate Clean(rs: seq<Region>, i: nat)
    requires i < |rs|
  {
    rs[i].end - rs[i].start < 0x1_0000_0000 && !Adjoins(rs, i)
  }

  /** Regions of 2^32 bytes or more are cut off. */
  predicate Cut(rs: seq<Region>, i: nat)
    requires i < |rs|
  {
    rs[i].start + 0x1_0000_0000 <= rs[i].end
  }

  lemma CutShort(r: Region)
    requires r.start <= r.end
    ensures r.start + Length32(r) <= r.end
    ensures if r.end - r.start < 0x1_0000_0000 then Length32(r) == r.end - r.start
            else Length32(r) + 0x1_0000_0000 <= r.end - r.start
  {
  }

  lemma OneRegion(v: View, rs: seq<Region>, c: nat, i: nat)
    requires 0 < c <= 0x1000_0000 && Ordered(v, rs) && i < |rs|
    ensures Clean(rs, i) ==> OneFed(v, rs, c, rs[i]) == Bytes(v, rs[i].start, rs[i].end)
    ensures var more := |OneFed(v, rs, c, rs[i])| - |Bytes(v, rs[i].start, rs[i].end)|;
      if Cut(rs, i) then more <= -0xF000_0000
      else if Adjoins(rs, i) then 0 < more <= 0x1000_0000
      else more == 0
  {
    var r := rs[i];
    CutShort(r);
    var e := r.start + Length32(r);
    InsideWalk(v, rs, c, i, r.start, e);
    assert |Bytes(v, r.start, r.end)| == r.end - r.start && |Bytes(v, r.start, e)| == e - r.start;
  }

  ghost predicate AnyCut(rs: seq<Region>, n: nat)
    requires n <= |rs|
  {
    exists i :: 0 <= i < n && Cut(rs, i)
  }

  ghost predicate AnyAdjoins(rs: seq<Region>, n: nat)
    requires n <= |rs|
  {
    exists i :: 0 <= i < n && Adjoins(rs, i)
  }

  lemma OneMore(v: View, rs: seq<Region>, n: nat)
    requires 0 < n <= |rs|
    ensures Concatenated(v, rs[..n]) == Concatenated(v, rs[..n - 1]) + Bytes(v, rs[n - 1].start, rs[n - 1].end)
  {
    assert rs[..n][..n - 1] == rs[..n - 1];
  }

  lemma {:induction false} FirstClean(v: View, rs: seq<Region>, c: nat, n: nat)
    requires 0 < c <= 0x1000_0000 && Ordered(v, rs) && n <= |rs| && forall i :: 0 <= i < n ==> Clean(rs, i)
    ensures RegionWalk(v, rs, c, n) == Concatenated(v, rs[..n])
  {
    if n > 0 {
      FirstClean(v, rs, c, n - 1);
      OneRegion(v, rs, c, n - 1);
      OneMore(v, rs, n);
    }
  }

  /** How much more, or less, than the regions is fed. */
  function Surplus(v: View, rs: seq<Region>, c: nat, n: nat): int
    requires c > 0 && n <= |rs|
  {
    |RegionWalk(v, rs, c, n)| - |Concatenated(v, rs[..n])|
  }

  /** What one region adds to the surplus. */
  predicate Changes(more: int, cut: bool, adjoins: bool) {
    if cut then more <= -0xF000_0000 else if adjoins then 0 < more <= 0x1000_0000 else more == 0
  }

  lemma NextSurplus(v: View, rs: seq<Region>, c: nat, n: nat)
    requires 0 < c <= 0x1000_0000 && Ordered(v, rs) && 0 < n <= |rs|
    ensures Changes(Surplus(v, rs, c, n) - Surplus(v, rs, c, n - 1), Cut(rs, n - 1), Adjoins(rs, n - 1))
  {
    OneRegion(v, rs, c, n - 1);
    SurplusStep(v, rs, c, n);
  }

  lemma SurplusStep(v: View, rs: seq<Region>, c: nat, n: nat)
    requires c > 0 && 0 < n <= |rs|
    ensures Surplus(v, rs, c, n)
         == Surplus(v, rs, c, n - 1) + |OneFed(v, rs, c, rs[n - 1])| - |Bytes(v, rs[n - 1].start, rs[n - 1].end)|
  {
    OneMore(v, rs, n);
  }

  lemma NextAny(rs: seq<Region>, n: nat)
    requires 0 < n <= |rs|
    ensures AnyCut(rs, n) <==> AnyCut(rs, n - 1) || Cut(rs, n - 1)
    ensures AnyAdjoins(rs, n) <==> AnyAdjoins(rs, n - 1) || Adjoins(rs, n - 1)
  {
  }

  lemma Accumulate(n: nat, before: int, after: int, cutBefore: bool, adjoinsBefore: bool, cut: bool, adjoins: bool)
    requires n > 0
    requires before <= (n - 1) * 0x1000_0000 - (if cutBefore then 0x1_0000_0000 else 0)
    requires (!cutBefore ==> before >= 0) && (!cutBefore && adjoinsBefore ==> before > 0)
    requires Changes(after - before, cut, adjoins)
    ensures after <= n * 0x1000_0000 - (if cutBefore || cut then 0x1_0000_0000 else 0)
    ensures (!cutBefore && !cut ==> after >= 0) && (!cutBefore && !cut && (adjoinsBefore || adjoins) ==> after > 0)
  {
  }

  /** Sums that change as the surplus does. */
  lemma {:induction false} Sums(rs: seq<Region>, sums: seq<int>, n: nat)
    requires n <= |rs| && |sums| == |rs| + 1 && sums[0] == 0
    requires forall k :: 0 < k <= |rs| ==> Changes(sums[k] - sums[k - 1], Cut(rs, k - 1), Adjoins(rs, k - 1))
    ensures sums[n] <= n * 0x1000_0000 - (if AnyCut(rs, n) then 0x1_0000_0000 else 0)
    ensures !AnyCut(rs, n) ==> sums[n] >= 0
    ensures !AnyCut(rs, n) && AnyAdjoins(rs, n) ==> sums[n] > 0
  {
    if n > 0 {
      Sums(rs, sums, n - 1);
      NextAny(rs, n);
      assert Changes(sums[n] - sums[n - 1], Cut(rs, n - 1), Adjoins(rs, n - 1));
      Accumulate(n, sums[n - 1], sums[n], AnyCut(rs, n - 1), AnyAdjoins(rs, n - 1), Cut(rs, n - 1), Adjoins(rs, n - 1));
    }
  }

  lemma Surpluses(v: View, rs: seq<Region>, c: nat)
    requires 0 < c <= 0x1000_0000 && Ordered(v, rs)
    ensures var more := Surplus(v, rs, c, |rs|);
      && more <= |rs| * 0x1000_0000 - (if AnyCut(rs, |rs|) then 0x1_0000_0000 else 0)
      && (!AnyCut(rs, |rs|) && AnyAdjoins(rs, |rs|) ==> more > 0)
  {
    var sums := seq(|rs| + 1, n requires 0 <= n <= |rs| => Surplus(v, rs, c, n));
    assert rs[..0] == [];
    forall k | 0 < k <= |rs| ensures Changes(sums[k] - sums[k - 1], Cut(rs, k - 1), Adjoins(rs, k - 1)) {
      NextSurplus(v, rs, c, k);
    }
    Sums(rs, sums, |rs|);
  }

  /** The walk region by region feeds the concatenated regions if and only if none
      of them adjoins the next and none has 2^32 bytes or more. */
  lemma RegionByRegionWalk(v: View, rs: seq<Region>, c: nat)
    requires 0 < c <= 0x1000_0000 && Ordered(v, rs) && |rs| <= 4
    ensures RegionWalk(v, rs, c, |rs|) == Concatenated(v, rs)
       <==> forall i :: 0 <= i < |rs| ==> Clean(rs, i)
  {
    assert rs[..|rs|] == rs;
    if forall i :: 0 <= i < |rs| ==> Clean(rs, i) {
      FirstClean(v, rs, c, |rs|);
    } else {
      var i :| 0 <= i < |rs| && !Clean(rs, i);
      assert Cut(rs, i) || Adjoins(rs, i);
      Surpluses(v, rs, c);
      assert Surplus(v, rs, c, |rs|) != 0;
    }
  }

  /** So the two walks agree unless a region starts at an unlucky place. */
  lemma WalksAgree(v: View, rs: seq<Region>, c: nat)
    requires 0 < c <= 0x1000_0000 && Ordered(v, rs) && |rs| <= 4
    requires (forall i :: 0 <= i < |rs| ==> Clean(rs, i)) && !AnyHit(rs, c, v.base)
    ensures Walk(v, rs, c, v.base, End(v)) == RegionWalk(v, rs, c, |rs|) == Concatenated(v, rs)
  {
    WholeFileWalk(v, rs, c);
    RegionByRegionWalk(v, rs, c);
  }

  lemma ConcatenatedTwo(v: View, a: Region, b: Region)
    ensures Concatenated(v, [a, b]) == Bytes(v, a.start, a.end) + Bytes(v, b.start, b.end)
  {
    assert [a, b][..1] == [a] && [a][..0] == [];
    assert Concatenated(v, [a]) == Bytes(v, a.start, a.end);
  }

  lemma ChunkTwo(v: View, a: Region, b: Region, u: nat, e: nat)
    ensures ChunkFed(v, [a, b], u, e) == Fed(v, a, u, e) + Fed(v, b, u, e)
  {
    assert [a, b][..1] == [a] && [a][..0] == [];
    assert ChunkFed(v, [a], u, e) == Fed(v, a, u, e);
  }
}
