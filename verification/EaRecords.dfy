/**
 Extended attribute records (FILE_FULL_EA_INFORMATION) in a buffer.

 A record holds the offset of the next one (4 bytes), flags (1), the lengths of the
 name (1) and of the value (2), the name with a terminating NUL, and the value.
 Numbers are little-endian, and records start at multiples of four.
 */
module EaRecords {
  import opened HashRegions

  datatype Record = Record(name: seq<byte>, value: seq<byte>)

  function AlignUp(n: nat): (m: nat)
    ensures n <= m < n + 4 && m % 4 == 0
  {
    (n + 3) / 4 * 4
  }

  /** The bytes a record takes, without and with padding. */
  function Used(r: Record): nat {
    8 + |r.name| + 1 + |r.value|
  }

  function Size(r: Record): nat {
    AlignUp(Used(r))
  }

  function Total(rs: seq<Record>): nat {
    if rs == [] then 0 else Size(rs[0]) + Total(rs[1..])
  }

  function Ulong(b: seq<byte>, o: nat): nat
    requires o + 4 <= |b|
  {
    b[o] as nat + 0x100 * b[o + 1] as nat + 0x1_0000 * b[o + 2] as nat + 0x100_0000 * b[o + 3] as nat
  }

  function Ushort(b: seq<byte>, o: nat): nat
    requires o + 2 <= |b|
  {
    b[o] as nat + 0x100 * b[o + 1] as nat
  }

  /** All of a record but the offset of the next one. */
  predicate Fields(b: seq<byte>, o: nat, r: Record) {
    && o + Used(r) <= |b|
    && b[o + 5] as nat == |r.name| && Ushort(b, o + 6) == |r.value|
    && b[o + 8..o + 8 + |r.name|] == r.name && b[o + 8 + |r.name|] == 0
    && b[o + 9 + |r.name|..o + Used(r)] == r.value
  }

  predicate RecordAt(b: seq<byte>, o: nat, r: Record, next: nat) {
    Fields(b, o, r) && Ulong(b, o) == next
  }

  /** Records that each lead to where the next one is, or will be. */
  predicate Laid(b: seq<byte>, o: nat, rs: seq<Record>)
    decreases |rs|
  {
    rs == [] || (RecordAt(b, o, rs[0], Size(rs[0])) && Laid(b, o + Size(rs[0]), rs[1..]))
  }

  /** A chain of records, as a file system takes and returns it: the last one has
      a next offset of zero. */
  predicate Chain(b: seq<byte>, o: nat, rs: seq<Record>)
    decreases |rs|
  {
    && rs != []
    && (if |rs| == 1 then RecordAt(b, o, rs[0], 0)
        else RecordAt(b, o, rs[0], Size(rs[0])) && Chain(b, o + Size(rs[0]), rs[1..]))
  }

  lemma {:induction false} TotalAligned(rs: seq<Record>)
    ensures Total(rs) % 4 == 0
  {
    if rs != [] {
      TotalAligned(rs[1..]);
    }
  }

  lemma {:induction false} TotalAppend(rs: seq<Record>, r: Record)
    ensures Total(rs + [r]) == Total(rs) + Size(r)
  {
    if rs != [] {
      TotalAppend(rs[1..], r);
      assert (rs + [r])[1..] == rs[1..] + [r];
    } else {
      assert [r][1..] == [];
    }
  }

  lemma FieldsSame(b: seq<byte>, b': seq<byte>, o: nat, r: Record)
    requires Fields(b, o, r) && |b'| == |b| && forall i :: o + 4 <= i < o + Used(r) ==> b'[i] == b[i]
    ensures Fields(b', o, r)
  {
  }

  /** What lies behind the records does not matter to them. */
  lemma {:induction false} LaidSame(b: seq<byte>, b': seq<byte>, o: nat, rs: seq<Record>)
    requires Laid(b, o, rs) && |b'| == |b| && forall i :: o <= i < |b| && i < o + Total(rs) ==> b'[i] == b[i]
    ensures Laid(b', o, rs)
    decreases |rs|
  {
    if rs != [] {
      FieldsSame(b, b', o, rs[0]);
      LaidSame(b, b', o + Size(rs[0]), rs[1..]);
    }
  }

  /** A record behind the others. */
  lemma {:induction false} LaidAppend(b: seq<byte>, o: nat, rs: seq<Record>, r: Record, at: nat)
    requires Laid(b, o, rs) && RecordAt(b, at, r, Size(r)) && at == o + Total(rs)
    ensures Laid(b, o, rs + [r])
    decreases |rs|
  {
    if rs == [] {
      assert [r][1..] == [];
      assert Laid(b, o + Size(r), []);
    } else {
      LaidAppend(b, o + Size(rs[0]), rs[1..], r, at);
      assert (rs + [r])[0] == rs[0] && (rs + [r])[1..] == rs[1..] + [r];
    }
  }

  /** The last offset is set to zero. */
  lemma {:induction false} Close(b: seq<byte>, b': seq<byte>, o: nat, rs: seq<Record>, last: nat)
    requires rs != [] && Laid(b, o, rs) && last == o + Total(rs[..|rs| - 1]) && |b'| == |b| && last + 4 <= |b|
    requires Ulong(b', last) == 0 && forall i :: 0 <= i < |b| && !(last <= i < last + 4) ==> b'[i] == b[i]
    ensures Chain(b', o, rs)
    decreases |rs|
  {
    FieldsSame(b, b', o, rs[0]);
    if |rs| > 1 {
      assert rs[..|rs| - 1][0] == rs[0] && rs[..|rs| - 1][1..] == rs[1..][..|rs| - 2];
      Close(b, b', o + Size(rs[0]), rs[1..], last);
    } else {
      assert rs[..0] == [];
    }
  }

  lemma FieldsUnique(b: seq<byte>, o: nat, r: Record, r': Record)
    requires Fields(b, o, r) && Fields(b, o, r')
    ensures r == r'
  {
  }

  /** The chain determines its records. */
  lemma {:induction false} ChainUnique(b: seq<byte>, o: nat, rs: seq<Record>, rs': seq<Record>)
    requires Chain(b, o, rs) && Chain(b, o, rs')
    ensures rs == rs'
    decreases |rs|
  {
    FieldsUnique(b, o, rs[0], rs'[0]);
    if |rs| > 1 {
      ChainUnique(b, o + Size(rs[0]), rs[1..], rs'[1..]);
    }
    assert rs == [rs[0]] + rs[1..] && rs' == [rs'[0]] + rs'[1..];
  }

  /** A record that lies in the first n bytes does not need the others. */
  lemma RecordCut(b: seq<byte>, o: nat, r: Record, next: nat, n: nat)
    requires n <= |b| && o + Used(r) <= n
    ensures RecordAt(b[..n], o, r, next) <==> RecordAt(b, o, r, next)
  {
    var b' := b[..n];
    assert b'[o + 8..o + 8 + |r.name|] == b[o + 8..o + 8 + |r.name|];
    assert b'[o + 9 + |r.name|..o + Used(r)] == b[o + 9 + |r.name|..o + Used(r)];
  }

  /** A chain lies in the bytes that its records take. */
  lemma {:induction false} ChainCut(b: seq<byte>, o: nat, rs: seq<Record>, n: nat)
    requires Chain(b, o, rs) && o + Total(rs) <= n <= |b|
    ensures Chain(b[..n], o, rs)
    decreases |rs|
  {
    RecordCut(b, o, rs[0], if |rs| == 1 then 0 else Size(rs[0]), n);
    if |rs| > 1 {
      ChainCut(b, o + Size(rs[0]), rs[1..], n);
    }
  }

  /** Where the record i of a chain is. */
  lemma {:induction false} RecordPlace(b: seq<byte>, o: nat, rs: seq<Record>, i: nat)
    requires Chain(b, o, rs) && i < |rs|
    ensures RecordAt(b, o + Total(rs[..i]), rs[i], if i == |rs| - 1 then 0 else Size(rs[i]))
    decreases |rs|
  {
    if i > 0 {
      RecordPlace(b, o + Size(rs[0]), rs[1..], i - 1);
      assert rs[..i][0] == rs[0] && rs[..i][1..] == rs[1..][..i - 1];
      assert o + Size(rs[0]) + Total(rs[1..][..i - 1]) == o + Total(rs[..i]);
    } else {
      assert rs[..0] == [];
    }
  }

  lemma {:induction false} TotalGrows(rs: seq<Record>, i: nat)
    requires i <= |rs|
    ensures Total(rs[..i]) <= Total(rs)
  {
    if i > 0 {
      TotalGrows(rs[1..], i - 1);
      assert rs[..i][0] == rs[0] && rs[..i][1..] == rs[1..][..i - 1];
    }
  }

  /** Records start at multiples of four and do not overlap. */
  lemma RecordsApart(b: seq<byte>, o: nat, rs: seq<Record>, i: nat)
    requires Chain(b, o, rs) && i < |rs|
    ensures RecordAt(b, o + Total(rs[..i]), rs[i], if i == |rs| - 1 then 0 else Size(rs[i]))
    ensures Total(rs[..i]) % 4 == 0 && Total(rs[..i]) + Used(rs[i]) <= Total(rs[..i + 1]) <= Total(rs)
  {
    RecordPlace(b, o, rs, i);
    TotalAligned(rs[..i]);
    TotalAppend(rs[..i], rs[i]);
    TotalGrows(rs, i + 1);
    assert rs[..i + 1] == rs[..i] + [rs[i]];
  }

  /** Following the offset of the last record leads behind all of them. */
  lemma {:induction false} BehindLast(b: seq<byte>, o: nat, rs: seq<Record>, last: nat)
    requires rs != [] && Laid(b, o, rs) && last == o + Total(rs[..|rs| - 1])
    ensures last + 4 <= |b| && last + Ulong(b, last) == o + Total(rs)
    decreases |rs|
  {
    if |rs| > 1 {
      assert rs[..|rs| - 1][0] == rs[0] && rs[..|rs| - 1][1..] == rs[1..][..|rs| - 2];
      BehindLast(b, o + Size(rs[0]), rs[1..], last);
    } else {
      assert rs[..0] == [] && Total(rs[1..]) == 0;
    }
  }

  lemma {:induction false} ChainExtend(b: seq<byte>, o: nat, rs: seq<Record>, n: nat)
    requires n <= |b| && Chain(b[..n], o, rs)
    ensures Chain(b, o, rs)
    decreases |rs|
  {
    RecordCut(b, o, rs[0], if |rs| == 1 then 0 else Size(rs[0]), n);
    if |rs| > 1 {
      ChainExtend(b, o + Size(rs[0]), rs[1..], n);
    }
  }

  /** The rest of a chain, if there are more records. */
  predicate ChainOrEnd(b: seq<byte>, at: nat, rs: seq<Record>, more: bool) {
    if more then Chain(b, at, rs) else rs == []
  }

  /** The record in front of a chain, and where it leads. */
  lemma ChainStep(b: seq<byte>, at: nat, rs: seq<Record>)
    requires Chain(b, at, rs)
    ensures rs != [] && Fields(b, at, rs[0]) && ChainOrEnd(b, at + Ulong(b, at), rs[1..], Ulong(b, at) != 0)
  {
  }

  /** The bytes of a number. */
  lemma Split32(n: nat)
    requires n < 0x1_0000_0000
    ensures n / 0x100_0000 < 0x100
    ensures n == n % 0x100 + 0x100 * (n / 0x100 % 0x100) + 0x1_0000 * (n / 0x1_0000 % 0x100)
               + 0x100_0000 * (n / 0x100_0000)
  {
  }
}
