/**
 The cache of hashes in the extended attributes of a file: one record for each
 algorithm, whose name starts with a prefix that makes the file system drop the
 record when the file is written to.
 */
module HashCache {
  import opened EaRecords
  import opened HashRegions
  import opened Wrappers

  const ALGORITHMS: nat := 7

  /** A hash in progress is what it has absorbed so far. */
  datatype Entry = Entry(handle: Option<seq<byte>>, complete: bool, length: nat, hash: seq<byte>)

  function NewEntries(): (xs: seq<Entry>)
    ensures |xs| == ALGORITHMS && forall i :: 0 <= i < |xs| ==> xs[i] == Entry(None, false, 0, [])
  {
    seq(ALGORITHMS, _ => Entry(None, false, 0, []))
  }

  function Ascii(s: string): (b: seq<byte>)
    ensures |b| == |s|
  {
    seq(|s|, i requires 0 <= i < |s| => (s[i] as int % 256) as byte)
  }

  function Suffix(i: nat): string {
    match i
    case 0 => "MD5"
    case 1 => "SHA1"
    case 2 => "SHA1A"
    case 3 => "SHA256"
    case 4 => "SHA256A"
    case 5 => "SHA384"
    case _ => "SHA512"
  }

  /** The names and sizes of KphpHashEaCacheInfo. */
  function Name(i: nat): seq<byte> {
    Ascii("$KERNEL.PURGE.SI.") + Ascii(Suffix(i))
  }

  function HashSize(i: nat): nat {
    match i
    case 0 => 16
    case 1 => 20
    case 2 => 20
    case 3 => 32
    case 4 => 32
    case 5 => 48
    case _ => 64
  }

  lemma NamesDiffer(i: nat, j: nat)
    requires i < j < ALGORITHMS
    ensures Name(i) != Name(j)
  {
    assert |Name(i)| == 17 + |Suffix(i)| && |Name(j)| == 17 + |Suffix(j)|;
    if |Suffix(i)| == 6 && |Suffix(j)| == 6 {
      assert Suffix(i)[3] != Suffix(j)[3];
      assert Name(i)[20] == Ascii(Suffix(i))[3] && Name(j)[20] == Ascii(Suffix(j))[3];
    }
  }

  /** All names start with "$KERNEL.PURGE.". */
  lemma Purged(i: nat)
    ensures Name(i)[..14] == [36, 75, 69, 82, 78, 69, 76, 46, 80, 85, 82, 71, 69, 46]
  {
  }

  function RecordOf(i: nat, hash: seq<byte>): Record {
    Record(Name(i), hash)
  }

  /** The records of the hashes among the first n that were computed. */
  function RecordsOf(xs: seq<Entry>, n: nat): seq<Record>
    requires n <= |xs|
  {
    if n == 0 then []
    else RecordsOf(xs, n - 1) + (if xs[n - 1].handle.Some? then [RecordOf(n - 1, xs[n - 1].hash)] else [])
  }

  /** The bound on the records of the first n hashes that is compared with the size
      of the buffer at compile time. */
  function Bound(n: nat): nat {
    if n == 0 then 0 else Bound(n - 1) + Room(n - 1)
  }

  lemma BoundFits()
    ensures Bound(ALGORITHMS) == 676 <= 16 * 1024
  {
    assert Bound(1) == 96 && Bound(2) == 192 && Bound(3) == 288;
    assert Bound(4) == 384 && Bound(5) == 484 && Bound(6) == 580;
  }

  lemma {:induction false} BoundGrows(n: nat, m: nat)
    requires n <= m
    ensures Bound(n) <= Bound(m)
  {
    if n < m {
      BoundGrows(n, m - 1);
    }
  }

  /** Only the entries before n matter to their records. */
  lemma {:induction false} RecordsSame(xs: seq<Entry>, ys: seq<Entry>, n: nat)
    requires n <= |xs| == |ys| && forall i :: 0 <= i < n ==> ys[i] == xs[i]
    ensures RecordsOf(ys, n) == RecordsOf(xs, n)
  {
    if n > 0 {
      RecordsSame(xs, ys, n - 1);
    }
  }

  /** All computed hashes have the size of their algorithm. */
  predicate Sized(xs: seq<Entry>) {
    |xs| == ALGORITHMS && forall i :: 0 <= i < |xs| && xs[i].handle.Some? ==> |xs[i].hash| == HashSize(i)
  }

  function Room(i: nat): nat {
    AlignUp(8 + (17 + |Suffix(i)|) + 1 + 64)
  }

  lemma SizeFits(i: nat, hash: seq<byte>)
    requires |hash| == HashSize(i)
    ensures Size(RecordOf(i, hash)) <= Room(i)
  {
  }

  lemma NextRecord(xs: seq<Entry>, n: nat)
    requires 0 < n <= |xs|
    ensures Total(RecordsOf(xs, n))
         == Total(RecordsOf(xs, n - 1)) + (if xs[n - 1].handle.Some? then Size(RecordOf(n - 1, xs[n - 1].hash)) else 0)
  {
    var before := RecordsOf(xs, n - 1);
    if xs[n - 1].handle.Some? {
      TotalAppend(before, RecordOf(n - 1, xs[n - 1].hash));
    } else {
      assert before + [] == before;
    }
  }

  lemma NextFits(xs: seq<Entry>, i: nat)
    requires Sized(xs) && i < |xs|
    ensures xs[i].handle.Some? ==> Size(RecordOf(i, xs[i].hash)) <= Room(i)
  {
  }

  lemma {:induction false} RecordsFit(xs: seq<Entry>, n: nat)
    requires Sized(xs) && n <= |xs|
    ensures Total(RecordsOf(xs, n)) <= Bound(n)
  {
    if n > 0 {
      RecordsFit(xs, n - 1);
      NextRecord(xs, n);
      NextFits(xs, n - 1);
    }
  }

  /** The algorithm of a record, by the size of the value and the name. */
  function AlgorithmOf(r: Record, n: nat): Option<nat> {
    if n == 0 then None
    else
      match AlgorithmOf(r, n - 1)
      case Some(i) => Some(i)
      case None => if |r.value| == HashSize(n - 1) && r.name == Name(n - 1) then Some(n - 1) else None
  }

  lemma {:induction false} Recognizes(r: Record, i: nat, n: nat)
    requires AlgorithmOf(r, i) == None && |r.value| == HashSize(i) && r.name == Name(i) && i < n
    ensures AlgorithmOf(r, n) == Some(i)
  {
    if n > i + 1 {
      Recognizes(r, i, n - 1);
    }
  }

  /** Reading one record, and a list of them. */
  function LoadOne(xs: seq<Entry>, r: Record): seq<Entry>
    requires |xs| == ALGORITHMS
    ensures |LoadOne(xs, r)| == ALGORITHMS
  {
    match AlgorithmOf(r, ALGORITHMS)
    case None => xs
    case Some(i) =>
      if i < |xs| then xs[i := xs[i].(hash := r.value, length := |r.value|, complete := true)] else xs
  }

  function LoadAll(xs: seq<Entry>, rs: seq<Record>): seq<Entry>
    requires |xs| == ALGORITHMS
    ensures |LoadAll(xs, rs)| == ALGORITHMS
  {
    if rs == [] then xs else LoadOne(LoadAll(xs, rs[..|rs| - 1]), rs[|rs| - 1])
  }

  lemma LoadStep(xs: seq<Entry>, rs: seq<Record>, r: Record)
    requires |xs| == ALGORITHMS
    ensures LoadAll(xs, rs + [r]) == LoadOne(LoadAll(xs, rs), r)
  {
  }

  lemma {:induction false} Recognized(i: nat, hash: seq<byte>, n: nat)
    requires i < ALGORITHMS && n <= ALGORITHMS && |hash| == HashSize(i)
    ensures AlgorithmOf(RecordOf(i, hash), n) == if i < n then Some(i) else None
  {
    if n > 0 {
      Recognized(i, hash, n - 1);
      if n - 1 < i {
        NamesDiffer(n - 1, i);
      } else if i < n - 1 {
        NamesDiffer(i, n - 1);
      }
    }
  }

  function Cached(x: Entry, written: Entry, i: nat, n: nat): Entry {
    if i < n && written.handle.Some? then x.(hash := written.hash, length := HashSize(i), complete := true) else x
  }

  /** Reading the record of one more hash sets the entry of that hash. */
  lemma LoadNext(xs: seq<Entry>, fresh_: seq<Entry>, n: nat)
    requires Sized(xs) && |fresh_| == ALGORITHMS && 0 < n <= ALGORITHMS
    ensures var before, x := LoadAll(fresh_, RecordsOf(xs, n - 1)), xs[n - 1];
      LoadAll(fresh_, RecordsOf(xs, n))
      == if x.handle.Some? then before[n - 1 := Cached(before[n - 1], x, n - 1, n)] else before
  {
    var x, rs := xs[n - 1], RecordsOf(xs, n - 1);
    if x.handle.Some? {
      LoadStep(fresh_, rs, RecordOf(n - 1, x.hash));
      Recognized(n - 1, x.hash, ALGORITHMS);
    } else {
      assert rs + [] == rs;
    }
  }

  /** What was written is what is read: exactly the computed hashes come back, and
      all other entries stay as they are. */
  lemma {:induction false} RoundTrip(xs: seq<Entry>, fresh_: seq<Entry>, n: nat)
    requires Sized(xs) && |fresh_| == ALGORITHMS && n <= ALGORITHMS
    ensures var ys := LoadAll(fresh_, RecordsOf(xs, n));
      forall i :: 0 <= i < ALGORITHMS ==> ys[i] == Cached(fresh_[i], xs[i], i, n)
  {
    if n > 0 {
      RoundTrip(xs, fresh_, n - 1);
      LoadNext(xs, fresh_, n);
    }
  }
}
