/**
 The names of several registry values in one message field: strings that end with a
 NUL each, and one more NUL at the end.

 The names are measured in a first pass and copied in a second.  Another thread can
 change them in between, so the second pass checks the room that is left.
 */
module RegistryNames {
  import opened Wrappers

  newtype wchar = x: int | 0 <= x < 0x1_0000

  type Name = seq<wchar>

  /** UNICODE_STRING_MAX_BYTES. */
  const MAX_BYTES: nat := 65534

  function Wide(s: string): (w: seq<wchar>)
    ensures |w| == |s|
  {
    seq(|s|, i requires 0 <= i < |s| => (s[i] as int % 0x1_0000) as wchar)
  }

  const DEFAULT: seq<wchar> := Wide("(Default)")

  /** The name that stands for a value: the value without a name has a default. */
  function Shown(name: Name): Name {
    if name == [] then DEFAULT else name
  }

  /** The names, each with a NUL behind it. */
  function Text(names: seq<Name>): seq<wchar> {
    if names == [] then [] else Text(names[..|names| - 1]) + Shown(names[|names| - 1]) + [0]
  }

  /** The content of the field. */
  function Field(names: seq<Name>): seq<wchar> {
    Text(names) + [0]
  }

  /** Bytes that a string of characters takes. */
  function Bytes(n: nat): nat {
    2 * n
  }

  /** A UNICODE_STRING: its buffer, and how many characters of it are in use. */
  class UnicodeString {
    const buffer: array<wchar>
    var used: nat

    constructor (size: nat)
      ensures fresh(buffer) && buffer.Length == size && used == 0
    {
      buffer := new wchar[size](_ => 0);
      used := 0;
    }

    ghost function Content(): seq<wchar>
      reads this, buffer
    {
      if used <= buffer.Length then buffer[..used] else []
    }

    /** RtlAppendUnicodeStringToString. */
    method Append(s: seq<wchar>) returns (ok: bool)
      requires used <= buffer.Length
      modifies this`used, buffer
      ensures used <= buffer.Length && ok == (|old(Content())| + |s| <= buffer.Length)
      ensures Content() == if ok then old(Content()) + s else old(Content())
    {
      if used + |s| > buffer.Length {
        return false;
      }
      forall i | 0 <= i < |s| {
        buffer[used + i] := s[i];
      }
      used := used + |s|;
      ok := true;
    }

    /** A terminator, if there is room for one. */
    method Terminate() returns (ok: bool)
      requires used <= buffer.Length
      modifies this`used, buffer
      ensures used <= buffer.Length && ok == (|old(Content())| < buffer.Length)
      ensures Content() == if ok then old(Content()) + [0] else old(Content())
    {
      if buffer.Length - used < 1 {
        return false;
      }
      buffer[used] := 0;
      used := used + 1;
      ok := true;
    }
  }

  lemma TextGrows(names: seq<Name>, i: nat)
    requires i < |names|
    ensures Text(names[..i + 1]) == Text(names[..i]) + Shown(names[i]) + [0]
  {
    assert names[..i + 1][..i] == names[..i];
  }

  lemma {:induction false} TextPrefix(names: seq<Name>, i: nat)
    requires i <= |names|
    ensures |Text(names[..i])| <= |Text(names)|
    decreases |names| - i
  {
    if i < |names| {
      TextPrefix(names, i + 1);
      TextGrows(names, i);
    } else {
      assert names[..i] == names;
    }
  }

  /** The first pass, which gives up if the sum does not fit 32 bits. */
  method Measure(names: seq<Name>) returns (length: Option<nat>)
    ensures length.Some? ==> length.value == Bytes(|Field(names)|)
    ensures length.None? ==> Bytes(|Field(names)|) > MAX_BYTES
  {
    var sum := 2;
    for i := 0 to |names|
      invariant sum == Bytes(|Text(names[..i])| + 1)
    {
      TextGrows(names, i);
      var valueLength := Bytes(|names[i]|);
      if valueLength != 0 {
        valueLength := valueLength + 2;
      } else {
        valueLength := Bytes(|DEFAULT|) + 2;
      }
      if sum + valueLength >= 0x1_0000_0000 {
        TextPrefix(names, i + 1);
        return None;
      }
      sum := sum + valueLength;
    }
    assert names[..|names|] == names;
    length := Some(sum);
  }

  /** The second pass. */
  method Copy(names: seq<Name>, valueNames: UnicodeString) returns (ok: bool)
    requires valueNames.used == 0
    modifies valueNames`used, valueNames.buffer
    ensures ok <==> |Field(names)| <= valueNames.buffer.Length
    ensures ok ==> valueNames.Content() == Field(names)
  {
    for i := 0 to |names|
      invariant valueNames.used <= valueNames.buffer.Length && valueNames.Content() == Text(names[..i])
    {
      TextGrows(names, i);
      TextPrefix(names, i + 1);
      var entry := if names[i] == [] then DEFAULT else names[i];
      ok := valueNames.Append(entry);
      if !ok {
        return;
      }
      ok := valueNames.Terminate();
      if !ok {
        return;
      }
    }
    assert names[..|names|] == names;
    ok := valueNames.Terminate();
  }

  /** KphpRegCopyMultipleValueNames; `names` is what the first pass reads, and `later`
      what the second does, and `memory` says that the buffer can be allocated. */
  method CopyMultipleValueNames(names: seq<Name>, later: seq<Name>, memory: bool) returns (field: Option<seq<wchar>>)
    requires |later| == |names|
    ensures field.Some? ==> field.value == Field(later)
    ensures field.Some? <==>
      names != [] && memory && Bytes(|Field(names)|) <= MAX_BYTES && |Field(later)| <= |Field(names)|
  {
    if names == [] {
      return None;
    }
    var length := Measure(names);
    if length.None? || length.value > MAX_BYTES {
      return None;
    }
    if !memory {
      return None;
    }
    var valueNames := new UnicodeString(length.value / 2);
    var ok := Copy(later, valueNames);
    field := if ok then Some(valueNames.buffer[..valueNames.used]) else None;
  }

  /** The strings before the first empty one. */
  function Strings(text: seq<wchar>, current: seq<wchar>): seq<Name>
    decreases |text|
  {
    if text == [] then []
    else if text[0] != 0 then Strings(text[1..], current + [text[0]])
    else if current == [] then []
    else [current] + Strings(text[1..], [])
  }

  /** What comes behind the first empty string. */
  function Behind(text: seq<wchar>, current: seq<wchar>): seq<wchar>
    decreases |text|
  {
    if text == [] then []
    else if text[0] != 0 then Behind(text[1..], current + [text[0]])
    else if current == [] then text[1..]
    else Behind(text[1..], [])
  }

  predicate NulFree(s: seq<wchar>) {
    forall i :: 0 <= i < |s| ==> s[i] != 0
  }

  /** The names as a reader of the field should see them: as they are, and "(Default)"
      for one that is empty. */
  ghost predicate AreShown(strings: seq<Name>, names: seq<Name>) {
    && |strings| == |names|
    && forall i :: 0 <= i < |names| ==>
         strings[i] == if names[i] == [] then [40, 68, 101, 102, 97, 117, 108, 116, 41] else names[i]
  }

  lemma {:induction false} ReadString(s: seq<wchar>, rest: seq<wchar>, current: seq<wchar>)
    requires NulFree(s)
    ensures Strings(s + rest, current) == Strings(rest, current + s)
    ensures Behind(s + rest, current) == Behind(rest, current + s)
    decreases |s|
  {
    if s == [] {
      assert s + rest == rest && current + s == current;
    } else {
      assert (s + rest)[1..] == s[1..] + rest;
      ReadString(s[1..], rest, current + [s[0]]);
      assert current + [s[0]] + s[1..] == current + s;
    }
  }

  lemma Regroup(a: seq<wchar>, t: seq<wchar>, l: seq<wchar>, z: seq<wchar>)
    ensures a + t + l + z == a + (t + l + z)
  {
  }

  lemma {:induction false} TextFront(names: seq<Name>)
    requires names != []
    ensures Text(names) == Shown(names[0]) + [0] + Text(names[1..])
  {
    var n := |names| - 1;
    var first := Shown(names[0]) + [0];
    if n == 0 {
      assert names[..0] == [] && names[1..] == [];
      assert [] + Shown(names[0]) == Shown(names[0]) && first + [] == first;
    } else {
      var middle, last := names[1..n], Shown(names[n]);
      TextFront(names[..n]);
      assert names[..n][1..] == middle && names[1..][..n - 1] == middle && names[1..][n - 1] == names[n];
      assert Text(names[1..]) == Text(middle) + last + [0];
      Regroup(first, Text(middle), last, [0]);
    }
  }

  lemma FieldFront(names: seq<Name>)
    requires names != []
    ensures Field(names) == Shown(names[0]) + ([0] + Field(names[1..]))
  {
    TextFront(names);
  }

  lemma ShownNulFree(name: Name)
    requires NulFree(name)
    ensures NulFree(Shown(name)) && Shown(name) != []
  {
  }

  lemma ReadNul(rest: seq<wchar>, current: seq<wchar>)
    requires current != []
    ensures Strings([0] + rest, current) == [current] + Strings(rest, [])
    ensures Behind([0] + rest, current) == Behind(rest, [])
  {
  }

  lemma DefaultName()
    ensures DEFAULT == [40, 68, 101, 102, 97, 117, 108, 116, 41]
  {
  }

  /** Splitting the field at the NULs gives back the names, whatever they are, if
      they have no NULs themselves; and the field ends with them. */
  lemma {:induction false} RoundTrip(names: seq<Name>)
    requires forall i :: 0 <= i < |names| ==> NulFree(names[i])
    ensures AreShown(Strings(Field(names), []), names) && Behind(Field(names), []) == []
  {
    if names == [] {
      assert Field(names) == [0];
    } else {
      var first, rest := Shown(names[0]), names[1..];
      FieldFront(names);
      DefaultName();
      ShownNulFree(names[0]);
      ReadString(first, [0] + Field(rest), []);
      assert [] + first == first;
      ReadNul(Field(rest), first);
      RoundTrip(rest);
    }
  }
}
