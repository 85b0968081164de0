/**
 The regions of a PE image that its Authenticode hash covers: everything but the
 check sum, the security directory entry and the certificates.
 */
module ImageRegions {
  import opened Division
  import opened HashRegions
  import opened ImageHeaders
  import opened TurnedRegions

  /** The address of the check sum, and that of the security directory entry. */
  function CheckSum(h: Header): (a: nat)
    requires h.Image?
    ensures a == h.optional + 64
  {
    h.optional + CheckSumOffset(h.wide)
  }

  function Directory(h: Header): (a: nat)
    requires h.Image?
    ensures a == h.optional + if h.wide then 144 else 128
  {
    h.optional + DirectoryOffset(h.wide, SECURITY)
  }

  predicate Signed(h: Header) {
    h.Image? && h.directories > 4 && h.address != 0 && h.size != 0
  }

  function SecurityBase(v: View, h: Header): nat
    requires h.Image?
  {
    v.base + h.address
  }

  function SecurityEnd(v: View, h: Header): nat
    requires h.Image?
  {
    v.base + h.address + h.size
  }

  /** What is read of the headers lies in the mapping: the number of directories, and
      the security directory entry if there is one. */
  predicate HeadersMapped(v: View, h: Header) {
    v.base > 0 && (h.Image? ==> v.base <= h.optional && HeadersEnd(h) <= End(v))
  }

  function HeadersEnd(h: Header): nat
    requires h.Image?
  {
    if h.directories > SECURITY then Directory(h) + DIRECTORY_SIZE else h.optional + DirectoryOffset(h.wide, 0)
  }

  /** The certificates lie in the mapping. */
  predicate Accepted(v: View, h: Header) {
    h.Image? && (Signed(h) ==> SecurityEnd(v, h) <= End(v))
  }

  const UNUSED := Region(0, 0)

  /** The regions that the code sets up, from the offsets of the fields in the structures
      IMAGE_OPTIONAL_HEADER32 and IMAGE_OPTIONAL_HEADER64. */
  function Regions(v: View, h: Header): seq<Region>
    requires h.Image?
  {
    var directory := h.optional + if h.wide then 144 else 128;
    var first, second := Region(v.base, h.optional + 64), h.optional + 68;
    if h.directories <= 4 then
      [first, Region(second, End(v)), UNUSED, UNUSED]
    else if !Signed(h) then
      [first, Region(second, directory), Region(directory + 8, End(v)), UNUSED]
    else
      [first, Region(second, directory), Region(directory + 8, SecurityBase(v, h)),
       if SecurityEnd(v, h) < End(v) then Region(SecurityEnd(v, h), End(v)) else UNUSED]
  }

  lemma ActiveRegions(v: View, h: Header)
    requires HeadersMapped(v, h) && h.Image?
    ensures var n := if h.directories <= 4 then 2 else if Signed(h) && SecurityEnd(v, h) < End(v) then 4 else 3;
      Active(Regions(v, h)) == Regions(v, h)[..n]
  {
    var n := if h.directories <= 4 then 2 else if Signed(h) && SecurityEnd(v, h) < End(v) then 4 else 3;
    ActivePrefix(Regions(v, h), n);
  }

  /** The certificates come behind the headers. */
  predicate Behind(v: View, h: Header)
    requires h.Image?
  {
    Signed(h) ==> SecurityBase(v, h) >= Directory(h) + 8
  }

  /** The check of the regions passes over all of them, so their order depends on
      where the file says its certificates are. */
  lemma OrderedIff(v: View, h: Header)
    requires HeadersMapped(v, h) && Accepted(v, h)
    ensures Ordered(v, Active(Regions(v, h))) <==> Behind(v, h)
  {
    ActiveRegions(v, h);
    if Signed(h) {
      assert Active(Regions(v, h))[2] == Region(Directory(h) + 8, SecurityBase(v, h));
    }
  }

  /** What is to be hashed is the file without three gaps: the check sum, the security
      directory entry, and the certificates. */
  function Ungapped(v: View, h: Header): seq<byte>
    requires h.Image?
  {
    var second, third := CheckSum(h) + CHECK_SUM_SIZE, Directory(h) + DIRECTORY_SIZE;
    if h.directories <= SECURITY then Bytes(v, v.base, CheckSum(h)) + Bytes(v, second, End(v))
    else
      Bytes(v, v.base, CheckSum(h)) + Bytes(v, second, Directory(h))
      + Bytes(v, third, if Signed(h) then SecurityBase(v, h) else End(v))
      + (if Signed(h) then Bytes(v, SecurityEnd(v, h), End(v)) else [])
  }

  lemma ConcatenatedThree(v: View, a: Region, b: Region, c: Region)
    ensures Concatenated(v, [a, b, c])
         == Bytes(v, a.start, a.end) + Bytes(v, b.start, b.end) + Bytes(v, c.start, c.end)
  {
    ConcatenatedTwo(v, a, b);
    assert [a, b, c][..2] == [a, b];
  }

  lemma ConcatenatedFour(v: View, a: Region, b: Region, c: Region, d: Region)
    ensures Concatenated(v, [a, b, c, d])
         == Bytes(v, a.start, a.end) + Bytes(v, b.start, b.end) + Bytes(v, c.start, c.end) + Bytes(v, d.start, d.end)
  {
    ConcatenatedThree(v, a, b, c);
    assert [a, b, c, d][..3] == [a, b, c];
  }

  lemma HashedBytes(v: View, h: Header)
    requires HeadersMapped(v, h) && Accepted(v, h)
    ensures Concatenated(v, Active(Regions(v, h))) == Ungapped(v, h)
  {
    ActiveRegions(v, h);
    if h.directories <= 4 {
      HashedTwo(v, h);
    } else if Signed(h) && SecurityEnd(v, h) < End(v) {
      HashedFour(v, h);
    } else {
      HashedThree(v, h);
    }
  }

  /** An unsigned PE32+ file, a PE32 file with its optional header at the same address,
      and the PE32+ file with 500 bytes of certificates. */
  lemma HashedImages(v: View)
    requires v.base == 65536 && |v.data| == 2000
    ensures Ungapped(v, Image(65536 + 200, true, 16, 0, 0)) == v.data[..264] + v.data[268..344] + v.data[352..]
    ensures Ungapped(v, Image(65536 + 200, false, 16, 0, 0)) == v.data[..264] + v.data[268..328] + v.data[336..]
    ensures Ungapped(v, Image(65536 + 200, true, 16, 1000, 500))
         == v.data[..264] + v.data[268..344] + v.data[352..1000] + v.data[1500..]
  {
    var wide, narrow := Image(65536 + 200, true, 16, 0, 0), Image(65536 + 200, false, 16, 0, 0);
    assert v.data[..264] + v.data[268..344] + v.data[352..] + [] == v.data[..264] + v.data[268..344] + v.data[352..];
    assert v.data[..264] + v.data[268..328] + v.data[336..] + [] == v.data[..264] + v.data[268..328] + v.data[336..];
    assert Bytes(v, Directory(wide) + 8, End(v)) == v.data[352..];
    assert Bytes(v, Directory(narrow) + 8, End(v)) == v.data[336..];
  }

  lemma HashedTwo(v: View, h: Header)
    requires h.Image? && h.directories <= 4
    ensures Concatenated(v, Regions(v, h)[..2]) == Ungapped(v, h)
  {
    var a, b := Region(v.base, CheckSum(h)), Region(CheckSum(h) + 4, End(v));
    assert Regions(v, h)[..2] == [a, b];
    ConcatenatedTwo(v, a, b);
  }

  lemma HashedThree(v: View, h: Header)
    requires HeadersMapped(v, h) && Accepted(v, h) && h.directories > 4 && !(Signed(h) && SecurityEnd(v, h) < End(v))
    ensures Concatenated(v, Regions(v, h)[..3]) == Ungapped(v, h)
  {
    var end := if Signed(h) then SecurityBase(v, h) else End(v);
    ThreeParts(v, h, end);
    NothingBehind(v, h, end);
  }

  lemma NothingBehind(v: View, h: Header, end: nat)
    requires h.Image? && h.directories > 4 && end == if Signed(h) then SecurityBase(v, h) else End(v)
    requires Signed(h) ==> SecurityEnd(v, h) >= End(v)
    ensures Ungapped(v, h)
         == Bytes(v, v.base, CheckSum(h)) + Bytes(v, CheckSum(h) + 4, Directory(h)) + Bytes(v, Directory(h) + 8, end)
  {
    var tail := if Signed(h) then Bytes(v, SecurityEnd(v, h), End(v)) else [];
    var second := Bytes(v, CheckSum(h) + 4, Directory(h));
    var parts := Bytes(v, v.base, CheckSum(h)) + second + Bytes(v, Directory(h) + 8, end);
    assert tail == [];
    assert Ungapped(v, h) == parts + tail;
  }

  lemma ThreeParts(v: View, h: Header, end: nat)
    requires h.Image? && h.directories > 4 && end == if Signed(h) then SecurityBase(v, h) else End(v)
    ensures Concatenated(v, Regions(v, h)[..3])
         == Bytes(v, v.base, CheckSum(h)) + Bytes(v, CheckSum(h) + 4, Directory(h)) + Bytes(v, Directory(h) + 8, end)
  {
    var a, b, c := Region(v.base, CheckSum(h)), Region(CheckSum(h) + 4, Directory(h)), Region(Directory(h) + 8, end);
    assert Regions(v, h)[..3] == [a, b, c];
    ConcatenatedThree(v, a, b, c);
  }

  lemma HashedFour(v: View, h: Header)
    requires h.Image? && h.directories > 4 && Signed(h) && SecurityEnd(v, h) < End(v)
    ensures Concatenated(v, Regions(v, h)[..4]) == Ungapped(v, h)
  {
    var a, b := Region(v.base, CheckSum(h)), Region(CheckSum(h) + 4, Directory(h));
    var c, d := Region(Directory(h) + 8, SecurityBase(v, h)), Region(SecurityEnd(v, h), End(v));
    assert Regions(v, h) == [a, b, c, d];
    assert [a, b, c, d][..4] == [a, b, c, d];
    ConcatenatedFour(v, a, b, c, d);
  }

  /** A part begins where a chunk ends. */
  predicate Unlucky(c: nat, v: View, start: nat, end: nat)
    requires c > 0
  {
    start < end && Hits(c, v.base, start)
  }

  /** No part that is hashed does, but for the first. */
  predicate Lucky(v: View, h: Header, c: nat)
    requires h.Image? && c > 0
  {
    && !Unlucky(c, v, CheckSum(h) + 4, if h.directories <= 4 then End(v) else Directory(h))
    && (h.directories > 4 ==> !Unlucky(c, v, Directory(h) + 8, if Signed(h) then SecurityBase(v, h) else End(v)))
    && (Signed(h) ==> !Unlucky(c, v, SecurityEnd(v, h), End(v)))
  }

  lemma LuckyIff(v: View, h: Header, c: nat)
    requires c > 0 && HeadersMapped(v, h) && h.Image?
    ensures Lucky(v, h, c) <==> !AnyHit(Active(Regions(v, h)), c, v.base)
  {
    ActiveRegions(v, h);
    if AnyHit(Active(Regions(v, h)), c, v.base) {
      HitUnlucky(v, h, c);
    } else {
      NoHitLucky(v, h, c);
    }
  }

  lemma HitUnlucky(v: View, h: Header, c: nat)
    requires c > 0 && HeadersMapped(v, h) && h.Image? && AnyHit(Active(Regions(v, h)), c, v.base)
    ensures !Lucky(v, h, c)
  {
    var all, rs := Regions(v, h), Active(Regions(v, h));
    ActiveRegions(v, h);
    var i :| 0 <= i < |rs| && rs[i].start < rs[i].end && Hits(c, v.base, rs[i].start);
    assert rs[i] == all[i];
    assert Unlucky(c, v, all[i].start, all[i].end);
    assert !Unlucky(c, v, all[0].start, all[0].end);
  }

  lemma NoHitLucky(v: View, h: Header, c: nat)
    requires c > 0 && HeadersMapped(v, h) && h.Image? && !AnyHit(Active(Regions(v, h)), c, v.base)
    ensures Lucky(v, h, c)
  {
    var rs := Active(Regions(v, h));
    ActiveRegions(v, h);
    forall i | 0 <= i < |rs| ensures !Unlucky(c, v, rs[i].start, rs[i].end) {
      assert rs[i].start < rs[i].end ==> !Hits(c, v.base, rs[i].start);
    }
    assert !Unlucky(c, v, rs[1].start, rs[1].end);
    assert |rs| > 2 ==> !Unlucky(c, v, rs[2].start, rs[2].end);
    assert |rs| > 3 ==> !Unlucky(c, v, rs[3].start, rs[3].end);
  }

  lemma InBehind(v: View, h: Header, c: nat)
    requires c > 0 && HeadersMapped(v, h) && Accepted(v, h) && Behind(v, h)
    ensures Walk(v, Active(Regions(v, h)), c, v.base, End(v)) == Ungapped(v, h) <==> Lucky(v, h, c)
  {
    OrderedIff(v, h);
    WholeFileWalk(v, Active(Regions(v, h)), c);
    HashedBytes(v, h);
    LuckyIff(v, h, c);
  }

  /** The certificates come behind the headers, or begin in an earlier chunk than the
      one in which the security directory entry ends. */
  predicate Separate(v: View, h: Header, c: nat)
    requires h.Image? && c > 0
  {
    Behind(v, h) || (v.base <= SecurityBase(v, h) &&
      (Directory(h) + 8 >= End(v)
       || Quot(SecurityBase(v, h) - v.base, c) != Quot(Directory(h) + 8 - v.base, c)))
  }

  /** The third region is the only one that can end before it starts. */
  lemma ThirdTurned(v: View, h: Header)
    requires HeadersMapped(v, h) && Accepted(v, h) && !Behind(v, h)
    ensures var rs := Regions(v, h);
      |rs| == 4 && rs[2] == Region(Directory(h) + 8, SecurityBase(v, h))
      && forall j :: 0 <= j < |rs| && j != 2 ==> rs[j].start <= rs[j].end
  {
  }

  /** The assertion on the bounds holds in every chunk of the file if and only if the
      certificates are separate from the headers. */
  lemma AssertionHolds(v: View, h: Header, c: nat)
    requires c > 0 && HeadersMapped(v, h) && Accepted(v, h)
    ensures AssertedWalk(Regions(v, h), c, v.base, End(v)) <==> Separate(v, h, c)
  {
    var rs := Regions(v, h);
    if Behind(v, h) {
      NoneTurned(rs, c, v.base, End(v));
    } else {
      ThirdTurned(v, h);
      OnlyOneTurned(rs, 2, c, v.base, End(v));
      AssertedIff(rs[2], c, v.base, End(v));
    }
  }

  lemma {:induction false} PrefixAsserted(rs: seq<Region>, n: nat, c: nat, u: nat, e: nat)
    requires c > 0 && n <= |rs| && AssertedWalk(rs, c, u, e)
    ensures AssertedWalk(rs[..n], c, u, e)
    decreases if u < e then e - u else 0
  {
    if u < e {
      PrefixAsserted(rs, n, c, Min(u + c, e), e);
    }
  }

  /** The mapping ends with the security directory entry, and the certificates begin
      where a chunk begins: then as many bytes may be fed as should be. */
  predicate MayAgree(v: View, h: Header, c: nat)
    requires h.Image? && c > 0
  {
    !Behind(v, h) && Directory(h) + 8 >= End(v) && Rem(SecurityBase(v, h) - v.base, c) == 0
  }

  lemma NotBehind(v: View, h: Header, c: nat)
    requires c > 0 && HeadersMapped(v, h) && Accepted(v, h) && !Behind(v, h)
    requires Separate(v, h, c) && !MayAgree(v, h, c)
    ensures Walk(v, Active(Regions(v, h)), c, v.base, End(v)) != Ungapped(v, h)
  {
    var rs := Active(Regions(v, h));
    AssertionHolds(v, h, c);
    ActiveRegions(v, h);
    PrefixAsserted(Regions(v, h), |rs|, c, v.base, End(v));
    RegionsMapped(v, h);
    assert Turns(rs[2], c, v.base, End(v));
    TurnedWalk(v, rs, c, 2);
    HashedBytes(v, h);
  }

  /** The walk of KphpHashFile over an image feeds the bytes of the image hash if and
      only if the certificates come behind the headers, and no part begins where a
      chunk ends. */
  lemma FileWalk(v: View, h: Header, c: nat)
    requires c > 0 && HeadersMapped(v, h) && Accepted(v, h) && Separate(v, h, c)
    ensures !MayAgree(v, h, c) ==>
      (Walk(v, Active(Regions(v, h)), c, v.base, End(v)) == Ungapped(v, h) <==> Behind(v, h) && Lucky(v, h, c))
  {
    if Behind(v, h) {
      InBehind(v, h, c);
    } else if !MayAgree(v, h, c) {
      NotBehind(v, h, c);
    }
  }

  /** What is fed for a third region that ends before it starts: the beginning of the
      chunk in which the certificates begin, and the rest of the one in which the
      security directory entry ends. */
  lemma ThirdRegionFed(v: View, h: Header, c: nat)
    requires c > 0 && HeadersMapped(v, h) && Accepted(v, h) && Separate(v, h, c) && !Behind(v, h)
    ensures var t, s := SecurityBase(v, h), Directory(h) + 8;
      && v.base <= t < s <= End(v)
      && Walk(v, [Region(s, t)], c, v.base, End(v))
      == Bytes(v, ChunkStart(v.base, c, t), t)
         + (if s < End(v) then Bytes(v, s, ChunkEnd(v.base, c, s, End(v))) else [])
  {
    var rs := Regions(v, h);
    AssertionHolds(v, h, c);
    ThirdTurned(v, h);
    OnlyOneTurned(rs, 2, c, v.base, End(v));
    BackwardWalk(v, rs[2], c, v.base);
  }

  /** An image whose second part begins where the first chunk of 16 KiB ends: what is
      in front of the check sum is fed twice, and the check sum as well. */
  lemma UnluckyImage(v: View, h: Header)
    requires v.base == 65536 && |v.data| == 17000 && h == Image(65536 + 16384 - 68, false, 0, 0, 0)
    ensures HeadersMapped(v, h) && Accepted(v, h) && Behind(v, h) && !Lucky(v, h, 16384)
    ensures Walk(v, Active(Regions(v, h)), 16384, v.base, End(v)) == Bytes(v, v.base, CheckSum(h)) + v.data
    ensures |Ungapped(v, h)| == |v.data| - 4
  {
    var a, b := Region(v.base, CheckSum(h)), Region(CheckSum(h) + 4, End(v));
    HitsMeaning(16384, v.base, CheckSum(h) + 4);
    ActiveRegions(v, h);
    assert Regions(v, h)[..2] == [a, b];
    UnluckyWalk(v, a, b);
  }

  lemma FirstChunk(v: View, a: Region, b: Region, m: nat)
    requires |v.data| == 17000 && m == v.base + 16384
    requires a == Region(v.base, v.base + 16380) && b == Region(m, End(v))
    ensures ChunkFed(v, [a, b], v.base, m) == Bytes(v, v.base, a.end) + Bytes(v, v.base, m)
  {
    ChunkTwo(v, a, b, v.base, m);
    assert Fed(v, a, v.base, m) == Bytes(v, v.base, a.end);
    assert Fed(v, b, v.base, m) == Bytes(v, v.base, m);
  }

  lemma SecondChunk(v: View, a: Region, b: Region, m: nat)
    requires |v.data| == 17000 && m == v.base + 16384
    requires a == Region(v.base, v.base + 16380) && b == Region(m, End(v))
    ensures ChunkFed(v, [a, b], m, End(v)) == Bytes(v, m, End(v))
  {
    ChunkTwo(v, a, b, m, End(v));
    assert Fed(v, a, m, End(v)) == [];
    assert Fed(v, b, m, End(v)) == Bytes(v, m, End(v));
    assert [] + Bytes(v, m, End(v)) == Bytes(v, m, End(v));
  }

  lemma TwoChunks(v: View, rs: seq<Region>, c: nat, u: nat, m: nat, e: nat)
    requires c > 0 && m == u + c && m < e <= m + c
    ensures Walk(v, rs, c, u, e) == ChunkFed(v, rs, u, m) + ChunkFed(v, rs, m, e)
  {
    WalkStep(v, rs, c, u, e, m);
    WalkStep(v, rs, c, m, e, e);
    assert Walk(v, rs, c, e, e) == [];
    assert ChunkFed(v, rs, m, e) + [] == ChunkFed(v, rs, m, e);
  }

  lemma UnluckyWalk(v: View, a: Region, b: Region)
    requires v.base == 65536 && |v.data| == 17000
    requires a == Region(v.base, v.base + 16380) && b == Region(v.base + 16384, End(v))
    ensures Walk(v, [a, b], 16384, v.base, End(v)) == Bytes(v, v.base, a.end) + v.data
  {
    var m, e := v.base + 16384, End(v);
    TwoChunks(v, [a, b], 16384, v.base, m, e);
    FirstChunk(v, a, b, m);
    SecondChunk(v, a, b, m);
    WholeFile(v, Bytes(v, v.base, a.end), m);
  }

  lemma WholeFile(v: View, before: seq<byte>, m: nat)
    requires v.base <= m <= End(v)
    ensures (before + Bytes(v, v.base, m)) + Bytes(v, m, End(v)) == before + v.data
  {
    BytesSplit(v, v.base, m, End(v));
    assert Bytes(v, v.base, End(v)) == v.data;
    var first, second := Bytes(v, v.base, m), Bytes(v, m, End(v));
    assert (before + first) + second == before + (first + second);
  }

  /** An image that is accepted although its certificates lie in the headers: a region
      ends before it starts, and in the same chunk, which violates the assertion. */
  lemma DisorderedImage(v: View, h: Header)
    requires v.base == 65536 && |v.data| == 1000 && h == Image(65536 + 200, false, 16, 10, 20)
    ensures HeadersMapped(v, h) && Accepted(v, h) && !Behind(v, h) && !Separate(v, h, 16384)
    ensures Regions(v, h)[2].end < Regions(v, h)[2].start && !Ordered(v, Active(Regions(v, h)))
  {
    OrderedIff(v, h);
  }

  lemma NotAdjoining(v: View, h: Header, i: nat)
    requires HeadersMapped(v, h) && Accepted(v, h) && Behind(v, h) && i < |Active(Regions(v, h))|
    ensures !Adjoins(Active(Regions(v, h)), i)
  {
    ActiveRegions(v, h);
  }

  /** Every part begins and ends in the mapping. */
  lemma RegionsMapped(v: View, h: Header)
    requires HeadersMapped(v, h) && Accepted(v, h)
    ensures var rs := Active(Regions(v, h));
      forall i :: 0 <= i < |rs| ==> v.base <= rs[i].start <= End(v) && v.base <= rs[i].end <= End(v)
  {
    ActiveRegions(v, h);
  }

  /** The walk of KphGetAuthenticodeInformation stays in the mapping. */
  ghost predicate StaysInside(v: View, rs: seq<Region>) {
    forall i :: 0 <= i < |rs| ==> Inside32(v, rs[i])
  }

  lemma OneMoreInside(v: View, rs: seq<Region>, k: nat)
    requires k < |rs| && StaysInside(v, rs[..k]) && Inside32(v, rs[k])
    ensures StaysInside(v, rs[..k + 1])
  {
  }

  predicate Inside32(v: View, r: Region) {
    r.start + Length32(r) <= End(v)
  }

  /** It does for regions in order; but one that ends before it starts has a length that
      wraps around, to nearly 2^32 bytes. */
  lemma StaysInsideIff(v: View, h: Header)
    requires HeadersMapped(v, h) && Accepted(v, h)
    ensures StaysInside(v, Active(Regions(v, h)))
       <==> (Behind(v, h) || Directory(h) + 8 + (SecurityBase(v, h) - Directory(h) - 8) % 0x1_0000_0000 <= End(v))
    ensures |v.data| < 0x1_0000_0000 ==> (StaysInside(v, Active(Regions(v, h))) <==> Behind(v, h))
  {
    var rs := Active(Regions(v, h));
    ActiveRegions(v, h);
    forall i | 0 <= i < |rs| && rs[i].start <= rs[i].end ensures Inside32(v, rs[i]) {
      RegionsMapped(v, h);
      CutShort(rs[i]);
    }
    if !Behind(v, h) {
      assert Inside32(v, rs[2])
        <==> Directory(h) + 8 + (SecurityBase(v, h) - Directory(h) - 8) % 0x1_0000_0000 <= End(v);
    }
  }

  lemma LeavesMapping(v: View, h: Header)
    requires HeadersMapped(v, h) && Accepted(v, h) && !Behind(v, h)
    requires Directory(h) + 8 >= End(v) && Directory(h) + 8 < SecurityBase(v, h) + 0x1_0000_0000
    ensures !StaysInside(v, Active(Regions(v, h)))
  {
    StaysInsideIff(v, h);
  }

  lemma AllSmall(v: View, h: Header, c: nat)
    requires 0 < c <= 0x1000_0000 && HeadersMapped(v, h) && Accepted(v, h) && Behind(v, h)
    ensures var rs := Active(Regions(v, h));
      RegionWalk(v, rs, c, |rs|) == Ungapped(v, h) <==> forall i :: 0 <= i < |rs| ==> !Cut(rs, i)
  {
    var rs := Active(Regions(v, h));
    OrderedIff(v, h);
    assert |rs| <= 4 by {
      ActiveRegions(v, h);
    }
    forall i | 0 <= i < |rs| ensures Clean(rs, i) <==> !Cut(rs, i) {
      NotAdjoining(v, h, i);
    }
    RegionByRegionWalk(v, rs, c);
    HashedBytes(v, h);
  }

  /** If the regions are not in order, the walk leaves the mapping or feeds too much. */
  lemma TooMuch(v: View, h: Header, c: nat)
    requires 0 < c && HeadersMapped(v, h) && Accepted(v, h) && !Behind(v, h)
    requires var rs := Active(Regions(v, h)); StaysInside(v, rs) && forall i :: 0 <= i < |rs| ==> !Cut(rs, i)
    requires Directory(h) + 8 - SecurityBase(v, h) < 0x1_0000_0000
    ensures var rs := Active(Regions(v, h)); RegionWalk(v, rs, c, |rs|) != Ungapped(v, h)
  {
    var rs := Active(Regions(v, h));
    ActiveRegions(v, h);
    RegionsMapped(v, h);
    assert rs[2] == Region(Directory(h) + 8, SecurityBase(v, h));
    forall j | 0 <= j < |rs| ensures WalkedWhole(v, rs, j) {
      assert Inside32(v, rs[j]);
    }
    RegionsAtLeast(v, rs, c, 2);
    assert rs[..|rs|] == rs;
    HashedBytes(v, h);
  }

  /** The parts of an image have less than 2^32 bytes, and so has what comes between the
      certificates and the headers if these come later. */
  ghost predicate Small(v: View, h: Header)
    requires h.Image?
  {
    && (forall i :: 0 <= i < |Active(Regions(v, h))| ==> !Cut(Active(Regions(v, h)), i))
    && Directory(h) + 8 < SecurityBase(v, h) + 0x1_0000_0000
  }

  /** The walk of KphGetAuthenticodeInformation stays in the mapping and feeds the bytes
      of the image hash if and only if the certificates come behind the headers and
      every part has less than 2^32 bytes: the parts of an image do not adjoin. */
  lemma InformationWalk(v: View, h: Header, c: nat)
    requires 0 < c <= 0x1000_0000 && HeadersMapped(v, h) && Accepted(v, h)
    ensures var rs := Active(Regions(v, h));
      Behind(v, h) || Small(v, h) || !StaysInside(v, rs) ==>
        (StaysInside(v, rs) && RegionWalk(v, rs, c, |rs|) == Ungapped(v, h)
         <==> Behind(v, h) && forall i :: 0 <= i < |rs| ==> !Cut(rs, i))
  {
    var rs := Active(Regions(v, h));
    StaysInsideIff(v, h);
    if Behind(v, h) {
      AllSmall(v, h, c);
    } else if Small(v, h) && StaysInside(v, rs) {
      TooMuch(v, h, c);
    }
  }

  /** An image of more than 2^32 bytes, whose second part is cut off. */
  lemma HugeImage(v: View, h: Header)
    requires v.base == 65536 && |v.data| == 0x1_0000_1000 && h == Image(65536 + 200, false, 0, 0, 0)
    ensures HeadersMapped(v, h) && Accepted(v, h) && Behind(v, h)
    ensures var rs := Active(Regions(v, h)); RegionWalk(v, rs, 16384, |rs|) != Ungapped(v, h)
  {
    var rs := Active(Regions(v, h));
    ActiveRegions(v, h);
    assert Cut(rs, 1);
    AllSmall(v, h, 16384);
  }

  /** In the walk region by region, no chunk has the end and the start of a region that
      ends before it starts: the assertion always holds. */
  lemma InformationAsserted(v: View, h: Header, c: nat, i: nat)
    requires c > 0 && HeadersMapped(v, h) && Accepted(v, h) && i < |Active(Regions(v, h))|
    ensures var r := Active(Regions(v, h))[i];
      AssertedWalk(Regions(v, h), c, r.start, r.start + Length32(r))
  {
    var rs, r := Regions(v, h), Active(Regions(v, h))[i];
    ActiveRegions(v, h);
    if Behind(v, h) {
      NoneTurned(rs, c, r.start, r.start + Length32(r));
    } else {
      ThirdTurned(v, h);
      OnlyOneTurned(rs, 2, c, r.start, r.start + Length32(r));
      if i < 2 {
        CutShort(r);
        NotReached(rs[2], c, r.start, r.start + Length32(r));
      } else {
        Passed(rs[2], c, r.start, r.start + Length32(r));
      }
    }
  }
}
