/**
 Regions that end before they start: when the bounds that the code computes for them
 are in order, as it asserts, and what it feeds then.
 */
module TurnedRegions {
  import opened Division
  import opened HashRegions

  /** Regions lie in the mapping, whatever their order. */
  ghost predicate Within(v: View, rs: seq<Region>) {
    forall i :: 0 <= i < |rs| ==> v.base <= rs[i].start <= End(v) && v.base <= rs[i].end <= End(v)
  }

  /** A region that ends before it starts, and does one of it in the chunk. */
  ghost predicate TurnedIn(rs: seq<Region>, u: nat, e: nat) {
    exists i :: 0 <= i < |rs| && Turned(rs[i], u, e)
  }

  predicate Turned(r: Region, u: nat, e: nat) {
    r.end < r.start && (u <= r.start < e || u < r.end < e)
  }

  /** And does it in one of the chunks from u up to e, but does not end where that begins. */
  predicate Turns(r: Region, c: nat, u: nat, e: nat)
    requires c > 0
  {
    r.end < r.start && (u <= r.start < e || (u <= r.end < e && Rem(r.end - u, c) != 0))
  }

  lemma TurnsNow(r: Region, c: nat, u: nat, e: nat)
    requires c > 0 && u < e && Turns(r, c, u, e)
    ensures Turned(r, u, Min(u + c, e)) || Turns(r, c, Min(u + c, e), e)
  {
    if u + c <= r.end < e {
      assert r.end - u - c == r.end - (u + c);
    }
  }

  lemma LastTurned(rs: seq<Region>, u: nat, e: nat)
    requires rs != []
    ensures TurnedIn(rs, u, e) ==> TurnedIn(rs[..|rs| - 1], u, e) || Turned(rs[|rs| - 1], u, e)
  {
    if i :| 0 <= i < |rs| - 1 && Turned(rs[i], u, e) {
      assert Turned(rs[..|rs| - 1][i], u, e);
    }
  }

  lemma {:induction false} ChunkAtLeast(v: View, rs: seq<Region>, u: nat, e: nat)
    requires Within(v, rs) && Asserted(rs, u, e) && v.base <= u < e <= End(v)
    ensures |ChunkFed(v, rs, u, e)| >= |Covered(v, rs, u, e)|
    ensures TurnedIn(rs, u, e) ==> |ChunkFed(v, rs, u, e)| > |Covered(v, rs, u, e)|
  {
    if rs != [] {
      ChunkAtLeast(v, rs[..|rs| - 1], u, e);
      LastTurned(rs, u, e);
    }
  }

  lemma PartLength(v: View, r: Region, u: nat, m: nat, e: nat)
    requires v.base <= r.start <= End(v) && v.base <= r.end <= End(v) && v.base <= u <= m <= e <= End(v)
    ensures |Part(v, r, u, e)| == |Part(v, r, u, m)| + |Part(v, r, m, e)|
  {
  }

  lemma {:induction false} CoveredLength(v: View, rs: seq<Region>, u: nat, m: nat, e: nat)
    requires Within(v, rs) && v.base <= u <= m <= e <= End(v)
    ensures |Covered(v, rs, u, e)| == |Covered(v, rs, u, m)| + |Covered(v, rs, m, e)|
  {
    if rs != [] {
      CoveredLength(v, rs[..|rs| - 1], u, m, e);
      PartLength(v, rs[|rs| - 1], u, m, e);
    }
  }

  lemma {:induction false} WalkAtLeast(v: View, rs: seq<Region>, c: nat, u: nat)
    requires c > 0 && Within(v, rs) && v.base <= u <= End(v) && AssertedWalk(rs, c, u, End(v))
    ensures |Walk(v, rs, c, u, End(v))| + |Covered(v, rs, End(v), End(v))| >= |Covered(v, rs, u, End(v))|
    ensures (exists i :: 0 <= i < |rs| && Turns(rs[i], c, u, End(v))) ==>
      |Walk(v, rs, c, u, End(v))| + |Covered(v, rs, End(v), End(v))| > |Covered(v, rs, u, End(v))|
    decreases End(v) - u
  {
    if u < End(v) {
      var m := Min(u + c, End(v));
      WalkAtLeast(v, rs, c, m);
      ChunkAtLeast(v, rs, u, m);
      CoveredLength(v, rs, u, m, End(v));
      if i :| 0 <= i < |rs| && Turns(rs[i], c, u, End(v)) {
        TurnsNow(rs[i], c, u, End(v));
      }
    }
  }

  lemma WholeLength(v: View, r: Region)
    requires v.base <= r.start <= End(v) && v.base <= r.end <= End(v)
    ensures |Part(v, r, v.base, End(v))| == |Bytes(v, r.start, r.end)| && |Part(v, r, End(v), End(v))| == 0
  {
  }

  lemma {:induction false} AllCoveredLength(v: View, rs: seq<Region>)
    requires Within(v, rs)
    ensures |Covered(v, rs, v.base, End(v))| == |Concatenated(v, rs)| && |Covered(v, rs, End(v), End(v))| == 0
  {
    if rs != [] {
      AllCoveredLength(v, rs[..|rs| - 1]);
      WholeLength(v, rs[|rs| - 1]);
    }
  }

  /** If a region ends before it starts, more than the concatenated regions is fed. */
  lemma TurnedWalk(v: View, rs: seq<Region>, c: nat, i: nat)
    requires c > 0 && Within(v, rs) && AssertedWalk(rs, c, v.base, End(v))
    requires i < |rs| && Turns(rs[i], c, v.base, End(v))
    ensures |Walk(v, rs, c, v.base, End(v))| > |Concatenated(v, rs)|
  {
    WalkAtLeast(v, rs, c, v.base);
    AllCoveredLength(v, rs);
  }

  /** A chunk is fed at least what it is fed for one of the regions. */
  lemma {:induction false} MemberFed(v: View, rs: seq<Region>, i: nat, u: nat, e: nat)
    requires i < |rs|
    ensures |ChunkFed(v, rs, u, e)| >= |Fed(v, rs[i], u, e)|
  {
    if i < |rs| - 1 {
      MemberFed(v, rs[..|rs| - 1], i, u, e);
    }
  }

  /** The walk over a region of less than 2^32 bytes feeds at least the region. */
  lemma {:induction false} InsideAtLeast(v: View, rs: seq<Region>, c: nat, i: nat, u: nat)
    requires c > 0 && Within(v, rs) && i < |rs| && rs[i].start <= u <= rs[i].end
    ensures |Walk(v, rs, c, u, rs[i].end)| >= rs[i].end - u
    decreases rs[i].end - u
  {
    if u < rs[i].end {
      var m := Min(u + c, rs[i].end);
      InsideAtLeast(v, rs, c, i, m);
      MemberFed(v, rs, i, u, m);
    }
  }

  /** The walk over a region that ends before it starts, if it stays in the mapping,
      feeds at least one byte. */
  lemma TurnedAtLeast(v: View, rs: seq<Region>, c: nat, i: nat, e: nat)
    requires c > 0 && Within(v, rs) && i < |rs| && rs[i].end < rs[i].start < e <= End(v)
    ensures |Walk(v, rs, c, rs[i].start, e)| > 0
  {
    var u, m := rs[i].start, Min(rs[i].start + c, e);
    MemberFed(v, rs, i, u, m);
    assert |Fed(v, rs[i], u, m)| == m - u;
    WalkStep(v, rs, c, u, e, m);
  }

  /** The walk over a region stays in the mapping, and is not cut off. */
  predicate WalkedWhole(v: View, rs: seq<Region>, i: nat)
    requires i < |rs|
  {
    rs[i].start + Length32(rs[i]) <= End(v) && !Cut(rs, i)
  }

  lemma OneAtLeast(v: View, rs: seq<Region>, c: nat, i: nat)
    requires c > 0 && Within(v, rs) && i < |rs| && WalkedWhole(v, rs, i)
    ensures |OneFed(v, rs, c, rs[i])| >= |Bytes(v, rs[i].start, rs[i].end)|
    ensures rs[i].end < rs[i].start && Length32(rs[i]) > 0 ==>
      |OneFed(v, rs, c, rs[i])| > |Bytes(v, rs[i].start, rs[i].end)|
  {
    var r := rs[i];
    if r.start <= r.end {
      CutShort(r);
      InsideAtLeast(v, rs, c, i, r.start);
    } else if Length32(r) > 0 {
      TurnedAtLeast(v, rs, c, i, r.start + Length32(r));
    }
  }

  /** The walks over all regions do. */
  ghost predicate AllWalked(v: View, rs: seq<Region>) {
    Within(v, rs) && forall j :: 0 <= j < |rs| ==> WalkedWhole(v, rs, j)
  }

  /** A region that ends before it starts, and is walked over. */
  predicate TurnedWalked(r: Region) {
    r.end < r.start && Length32(r) > 0
  }

  /** The walk region by region feeds at least the regions, and more if one of them ends
      before it starts. */
  lemma RegionsAtLeast(v: View, rs: seq<Region>, c: nat, i: nat)
    requires c > 0 && AllWalked(v, rs) && i < |rs| && TurnedWalked(rs[i])
    ensures Surplus(v, rs, c, |rs|) >= 1
  {
    var sums := seq(|rs| + 1, n requires 0 <= n <= |rs| => Surplus(v, rs, c, n));
    NoSurplus(v, rs, c);
    forall n | 0 < n <= |rs| ensures sums[n] >= sums[n - 1] + if i == n - 1 then 1 else 0 {
      OneSurplus(v, rs, c, n, i);
    }
    Rises(sums, |rs|, i);
  }

  /** Sums that never fall, and rise once. */
  lemma {:induction false} Rises(sums: seq<int>, n: nat, i: nat)
    requires n < |sums| && sums[0] >= 0
    requires forall k :: 0 < k < |sums| ==> sums[k] >= sums[k - 1] + if i == k - 1 then 1 else 0
    ensures sums[n] >= if i < n then 1 else 0
  {
    if n > 0 {
      Rises(sums, n - 1, i);
    }
  }

  lemma NoSurplus(v: View, rs: seq<Region>, c: nat)
    requires c > 0
    ensures Surplus(v, rs, c, 0) == 0
  {
    assert rs[..0] == [];
  }

  lemma OneSurplus(v: View, rs: seq<Region>, c: nat, n: nat, i: nat)
    requires c > 0 && AllWalked(v, rs) && 0 < n <= |rs| && i < |rs| && TurnedWalked(rs[i])
    ensures Surplus(v, rs, c, n) >= Surplus(v, rs, c, n - 1) + if i == n - 1 then 1 else 0
  {
    assert WalkedWhole(v, rs, n - 1);
    OneAtLeast(v, rs, c, n - 1);
    SurplusStep(v, rs, c, n);
  }

  /** Where the chunk of an address starts, counted from u, and where it ends. */
  function ChunkStart(u: nat, c: nat, x: nat): nat
    requires c > 0 && u <= x
  {
    u + Times(Quot(x - u, c), c)
  }

  function ChunkEnd(u: nat, c: nat, x: nat, e: nat): nat
    requires c > 0 && u <= x
  {
    Min(ChunkStart(u, c, x) + c, e)
  }

  lemma LaterChunk(u: nat, c: nat, x: nat)
    requires c > 0 && u + c <= x
    ensures ChunkStart(u, c, x) == ChunkStart(u + c, c, x) && Quot(x - u, c) == Quot(x - (u + c), c) + 1
  {
    assert x - u - c == x - (u + c);
  }

  lemma SameChunk(u: nat, c: nat, x: nat)
    requires c > 0 && u <= x < u + c
    ensures ChunkStart(u, c, x) == u && Quot(x - u, c) == 0
  {
  }

  /** If all other regions are in order, the assertion is about this one. */
  lemma {:induction false} OnlyOneTurned(rs: seq<Region>, i: nat, c: nat, u: nat, e: nat)
    requires c > 0 && i < |rs| && forall j :: 0 <= j < |rs| && j != i ==> rs[j].start <= rs[j].end
    ensures AssertedWalk(rs, c, u, e) <==> AssertedWalk([rs[i]], c, u, e)
    decreases if u < e then e - u else 0
  {
    if u < e {
      var m := Min(u + c, e);
      OnlyOneTurned(rs, i, c, m, e);
      assert [rs[i]][0] == rs[i];
    }
  }

  lemma {:induction false} NoneTurned(rs: seq<Region>, c: nat, u: nat, e: nat)
    requires c > 0 && forall j :: 0 <= j < |rs| ==> rs[j].start <= rs[j].end
    ensures AssertedWalk(rs, c, u, e)
    decreases if u < e then e - u else 0
  {
    if u < e {
      NoneTurned(rs, c, Min(u + c, e), e);
    }
  }

  /** A region that ends before it starts satisfies the assertion in every chunk if
      and only if no chunk has both its start and its end. */
  lemma {:induction false} AssertedIff(r: Region, c: nat, u: nat, e: nat)
    requires c > 0 && u <= r.end < r.start
    ensures AssertedWalk([r], c, u, e) <==> r.start >= e || Quot(r.end - u, c) != Quot(r.start - u, c)
    decreases if u < e then e - u else 0
  {
    if u < e {
      var m := Min(u + c, e);
      assert Asserted([r], u, m) <==> InOrder(r, u, m) by {
        assert [r][0] == r;
      }
      if r.end < m {
        SameChunk(u, c, r.end);
        Passed(r, c, m, e);
        if r.start < u + c {
          SameChunk(u, c, r.start);
        } else {
          LaterChunk(u, c, r.start);
        }
      } else if m < e {
        AssertedIff(r, c, m, e);
        LaterChunk(u, c, r.end);
        LaterChunk(u, c, r.start);
      } else {
        Passed(r, c, m, e);
      }
    }
  }

  /** Before its start there is nothing to assert. */
  lemma {:induction false} NotReached(r: Region, c: nat, u: nat, e: nat)
    requires c > 0 && e <= r.start
    ensures AssertedWalk([r], c, u, e)
    decreases if u < e then e - u else 0
  {
    if u < e {
      NotReached(r, c, Min(u + c, e), e);
    }
  }

  /** Behind its end, or without any chunks, there is nothing to assert. */
  lemma {:induction false} Passed(r: Region, c: nat, u: nat, e: nat)
    requires c > 0 && (r.end < u || u >= e)
    ensures AssertedWalk([r], c, u, e)
    decreases if u < e then e - u else 0
  {
    if u < e {
      Passed(r, c, Min(u + c, e), e);
    }
  }

  /** The beginning of the chunk in which a region ends, and the rest of the chunk in
      which it starts. */
  function UpTo(v: View, r: Region, c: nat, u: nat): seq<byte>
    requires c > 0
  {
    if u <= r.end < End(v) then Bytes(v, ChunkStart(u, c, r.end), r.end) else []
  }

  function From(v: View, r: Region, c: nat, u: nat): seq<byte>
    requires c > 0
  {
    if u <= r.start < End(v) then Bytes(v, r.start, ChunkEnd(u, c, r.start, End(v))) else []
  }

  lemma NextUpTo(v: View, r: Region, c: nat, u: nat, m: nat)
    requires c > 0 && u < End(v) && m == Min(u + c, End(v))
    ensures UpTo(v, r, c, u) == if u <= r.end < m then Bytes(v, u, r.end) else UpTo(v, r, c, m)
  {
    if u <= r.end < m {
      SameChunk(u, c, r.end);
    } else if m <= r.end < End(v) {
      LaterChunk(u, c, r.end);
    }
  }

  lemma NextFrom(v: View, r: Region, c: nat, u: nat, m: nat)
    requires c > 0 && u < End(v) && m == Min(u + c, End(v))
    ensures From(v, r, c, u) == if u <= r.start < m then Bytes(v, r.start, m) else From(v, r, c, m)
  {
    if u <= r.start < m {
      SameChunk(u, c, r.start);
    } else if m <= r.start < End(v) {
      LaterChunk(u, c, r.start);
    }
  }

  lemma Joined(chunk: seq<byte>, a: seq<byte>, b: seq<byte>, a': seq<byte>, b': seq<byte>)
    requires || (chunk == [] && a == a' && b == b')
             || (chunk == a && a' == [] && b == b')
             || (chunk == b && a == a' == [] && b' == [])
    ensures chunk + (a' + b') == a + b
  {
  }

  lemma BackwardStep(v: View, r: Region, c: nat, u: nat, m: nat)
    requires c > 0 && u < End(v) && m == Min(u + c, End(v)) && r.end < r.start && InOrder(r, u, m)
    ensures FedBackward(v, r, u, m) + (UpTo(v, r, c, m) + From(v, r, c, m)) == UpTo(v, r, c, u) + From(v, r, c, u)
  {
    NextUpTo(v, r, c, u, m);
    NextFrom(v, r, c, u, m);
    Joined(FedBackward(v, r, u, m), UpTo(v, r, c, u), From(v, r, c, u), UpTo(v, r, c, m), From(v, r, c, m));
  }

  /** Then what is fed for it are these bytes, none of which is between its bounds. */
  lemma {:induction false} BackwardWalk(v: View, r: Region, c: nat, u: nat)
    requires c > 0 && v.base <= u <= End(v) && r.end < r.start && AssertedWalk([r], c, u, End(v))
    ensures Walk(v, [r], c, u, End(v)) == UpTo(v, r, c, u) + From(v, r, c, u)
    decreases End(v) - u
  {
    if u < End(v) {
      var m := Min(u + c, End(v));
      BackwardWalk(v, r, c, m);
      BackwardChunk(v, r, u, m);
      BackwardStep(v, r, c, u, m);
      WalkStep(v, [r], c, u, End(v), m);
    }
  }

  lemma BackwardChunk(v: View, r: Region, u: nat, e: nat)
    requires r.end < r.start && Asserted([r], u, e)
    ensures InOrder(r, u, e) && ChunkFed(v, [r], u, e) == FedBackward(v, r, u, e)
  {
    assert [r][0] == r && [r][..0] == [];
  }
}
