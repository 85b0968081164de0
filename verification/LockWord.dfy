/**
 The word behind an atomic object reference (KPH_ATOMIC_OBJECT_REF).

 One machine word holds an object pointer and a reader/writer lock.  With
 `w` a power of two, the low bits count shared holders (0 .. w - 1), the bit of
 weight `w` is the exclusive flag, and everything above is the object pointer,
 which is therefore a multiple of 2 * w.  The 64-bit build has w == 8 and the
 32-bit build has w == 4; every lemma here holds for any w >= 2.
 */
module LockWord {
  import opened Division

  datatype Fields = Fields(pointer: nat, exclusive: bool, shared: nat)

  ghost predicate WellFormed(w: nat, f: Fields)
    requires w >= 2
  {
    Rem(f.pointer, 2 * w) == 0 && f.shared < w
  }

  function SharedMax(w: nat): nat
    requires w >= 2
  {
    w - 1
  }

  function Encode(w: nat, f: Fields): nat {
    f.pointer + (if f.exclusive then w else 0) + f.shared
  }

  /** The lock bits: the word masked with KPH_ATOMIC_OBJECT_REF_LOCK_MASK. */
  function Lock(w: nat, word: nat): (lock: nat)
    requires w >= 2
  {
    Rem(word, 2 * w)
  }

  /** Rem is the operator %. */
  lemma LockIs(w: nat, word: nat)
    requires w >= 2
    ensures Lock(w, word) == word % (2 * w)
  {
    Operators(word, 0, 2 * w);
  }

  /** Reads the three fields of a word with the three masks of the source. */
  function Decode(w: nat, word: nat): (f: Fields)
    requires w >= 2
  {
    var lock := Lock(w, word);
    RemAtMost(word, 2 * w);
    Fields(word - lock, lock >= w, if lock >= w then lock - w else lock)
  }

  /** Every word is represented by exactly one combination of fields. */
  lemma Decoded(w: nat, word: nat)
    requires w >= 2
    ensures WellFormed(w, Decode(w, word)) && Encode(w, Decode(w, word)) == word
  {
    Recompose(word, 2 * w);
    Decompose(Quot(word, 2 * w), 0, 2 * w);
  }

  /** Every combination of fields is represented by exactly one word. */
  lemma DecodeEncode(w: nat, f: Fields)
    requires w >= 2 && WellFormed(w, f)
    ensures Decode(w, Encode(w, f)) == f
  {
    Recompose(f.pointer, 2 * w);
    Decompose(Quot(f.pointer, 2 * w), Encode(w, f) - f.pointer, 2 * w);
  }

  /** A word whose lock bits are below the shared maximum is not exclusive, and
      adding one takes one more shared hold without touching the other fields. */
  lemma AddShared(w: nat, word: nat)
    requires w >= 2 && Lock(w, word) < SharedMax(w)
    ensures var f := Decode(w, word);
            !f.exclusive && Decode(w, word + 1) == f.(shared := f.shared + 1)
  {
    Decoded(w, word);
    var f := Decode(w, word);
    DecodeEncode(w, f.(shared := f.shared + 1));
  }

  lemma DropShared(w: nat, word: nat)
    requires w >= 2 && Decode(w, word).shared > 0
    ensures word >= 1
    ensures var f := Decode(w, word); Decode(w, word - 1) == f.(shared := f.shared - 1)
  {
    Decoded(w, word);
    var f := Decode(w, word);
    DecodeEncode(w, f.(shared := f.shared - 1));
  }

  lemma SetExclusive(w: nat, word: nat)
    requires w >= 2 && !Decode(w, word).exclusive
    ensures Decode(w, word + w) == Decode(w, word).(exclusive := true)
  {
    Decoded(w, word);
    DecodeEncode(w, Decode(w, word).(exclusive := true));
  }

  lemma ResetExclusive(w: nat, word: nat)
    requires w >= 2 && Decode(w, word).exclusive
    ensures word >= w
    ensures Decode(w, word - w) == Decode(w, word).(exclusive := false)
  {
    Decoded(w, word);
    DecodeEncode(w, Decode(w, word).(exclusive := false));
  }

  /** The word the exclusive holder exchanges in. */
  lemma Exchanged(w: nat, pointer: nat)
    requires w >= 2 && Rem(pointer, 2 * w) == 0
    ensures Decode(w, pointer + w) == Fields(pointer, true, 0)
  {
    DecodeEncode(w, Fields(pointer, true, 0));
  }

  /** The bit masks of the 64-bit build select exactly these fields. */
  lemma Masks64(x: bv64)
    ensures x & 0xf == x % 16
    ensures x & 0xffff_ffff_ffff_fff0 == x - x % 16
    ensures x & 7 == x % 8
    ensures x & 8 != 0 <==> x % 16 >= 8
    ensures x | 8 == if x % 16 >= 8 then x else x + 8
  {
  }

  /** The bit masks of the 32-bit build select exactly these fields. */
  lemma Masks32(x: bv32)
    ensures x & 7 == x % 8
    ensures x & 0xffff_fff8 == x - x % 8
    ensures x & 3 == x % 4
    ensures x & 4 != 0 <==> x % 8 >= 4
    ensures x | 4 == if x % 8 >= 4 then x else x + 4
  {
  }
}
