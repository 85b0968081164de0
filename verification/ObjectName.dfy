/**
 The name of a file object: the name of its device, followed by the names along the
 chain of related file objects, the farthest first.

 The chain is walked twice.  The first walk measures, the second copies the names
 from the last byte to the first.
 */
module ObjectName {
  import opened Wrappers

  newtype byte = x: int | 0 <= x < 256

  /** A file object; an inductive type, so a chain of related objects ends. */
  datatype FileObject = FileObject(
    closed: bool,                       // FO_CLEANUP_COMPLETE
    named: bool,                        // FileName.Buffer is not NULL
    name: seq<byte>,
    device: Option<Device>,
    related: Option<FileObject>)

  /** What ObQueryNameString knows of a device: its name, or that the query fails
      for another reason than the length of the buffer and reports some length. */
  datatype Device = Known(name: seq<byte>) | Failing(length: nat)

  datatype Status = Success | FileClosed | BufferTooSmall | OtherFailure

  /** sizeof(OBJECT_NAME_INFORMATION). */
  const HEADER: nat := 16

  /** The names that both walks collect, from the file object on. */
  function Chain(f: FileObject): seq<seq<byte>> {
    if f.closed then []
    else [f.name] + (if f.related.Some? then Chain(f.related.value) else [])
  }

  /** The names in the order in which they make up the path. */
  function Path(names: seq<seq<byte>>): seq<byte> {
    if names == [] then [] else Path(names[1..]) + names[0]
  }

  lemma {:induction false} PathSplits(names: seq<seq<byte>>, k: nat)
    requires k <= |names|
    ensures Path(names) == Path(names[k..]) + Path(names[..k])
  {
    if k == 0 {
      assert Path(names) + [] == Path(names);
    } else {
      PathSplits(names[1..], k - 1);
      assert names[1..][k - 1..] == names[k..] && names[1..][..k - 1] == names[..k][1..];
      var far, near := Path(names[k..]), Path(names[..k][1..]);
      assert (far + near) + names[0] == far + (near + names[0]);
    }
  }

  lemma PathAppend(names: seq<seq<byte>>, k: nat)
    requires k < |names|
    ensures Path(names[..k + 1]) == names[k] + Path(names[..k])
    ensures Path(names[k..]) == Path(names[k + 1..]) + names[k]
  {
    PathSplits(names[..k + 1], k);
    assert names[..k + 1][k..] == [names[k]] && names[..k + 1][..k] == names[..k];
    assert Path([names[k]]) == Path([names[k]][1..]) + names[k];
    assert names[k..][1..] == names[k + 1..];
  }

  /** The length that ObQueryNameString reports: with a terminator, if there is a name. */
  function DeviceLength(d: Device): nat {
    match d
    case Known(name) => HEADER + |name| + (if name == [] then 0 else 2)
    case Failing(length) => length
  }

  /** The length that is reported before the names along the chain are counted. */
  function Base(f: FileObject): nat {
    if f.device.Some? then DeviceLength(f.device.value) else HEADER
  }

  function Needed(f: FileObject): nat {
    Base(f) + if f.named then |Path(Chain(f))| else 0
  }

  function DeviceName(f: FileObject): seq<byte> {
    if f.device.Some? && f.device.value.Known? then f.device.value.name else []
  }

  /** The whole name. */
  function FullName(f: FileObject): seq<byte> {
    DeviceName(f) + if f.named then Path(Chain(f)) else []
  }

  /** A file that is opened in a directory by another one: device, directory, file. */
  lemma RelatedName(f: FileObject, directory: FileObject, name: seq<byte>, path: seq<byte>, device: seq<byte>)
    requires directory == FileObject(false, true, path, Some(Known(device)), None)
    requires f == FileObject(false, true, name, Some(Known(device)), Some(directory))
    ensures FullName(f) == device + (path + name)
  {
    assert Chain(directory) == [path] && Chain(f) == [name] + [path];
    assert Path([path]) == Path([path][1..]) + path == path;
    assert Chain(f)[1..] == [path];
  }

  /** A name of 64 KiB or more: two of the bytes that are written would be reported. */
  lemma LongName(f: FileObject, name: seq<byte>)
    requires |name| == 65534 && f == FileObject(false, true, name, Some(Known([92, 0, 65, 0])), None)
    ensures |FullName(f)| == 65538 && |FullName(f)| % 0x1_0000 == 2 && Needed(f) == HEADER + 6 + |name|
  {
    assert Chain(f) == [name] && [name][1..] == [];
    assert Path([name]) == Path([]) + name;
  }

  /** The names along the chain are not written behind a buffer of a size.  The code
      compares the size with the length that the query of the device reports. */
  predicate NoOverrun(f: FileObject, size: nat) {
    !f.closed && QueryFails(f) && f.named && HEADER <= size && Needed(f) <= size ==>
      HEADER + |Path(Chain(f))| <= size
  }

  /** They are not for any size, if and only if a query that fails does not report less
      than the header takes, or there are no names to write. */
  lemma NoOverrunIff(f: FileObject)
    ensures (forall size: nat :: NoOverrun(f, size))
       <==> (f.closed || !QueryFails(f) || !f.named || f.device.value.length >= HEADER || Path(Chain(f)) == [])
  {
    if !f.closed && QueryFails(f) && f.named && f.device.value.length < HEADER && Path(Chain(f)) != [] {
      var size := if Needed(f) < HEADER then HEADER else Needed(f);
      assert !NoOverrun(f, size);
    }
  }

  predicate QueryFails(f: FileObject) {
    f.device.Some? && f.device.value.Failing?
  }

  /** OBJECT_NAME_INFORMATION with the buffer behind it. */
  class NameBuffer {
    const bytes: array<byte>
    var length: nat
    var maximumLength: nat

    constructor (size: nat)
      ensures fresh(bytes) && bytes.Length == size && length == 0
    {
      bytes := new byte[size](_ => 0);
      length, maximumLength := 0, 0;
    }

    /** RtlCopyMemory. */
    method CopyTo(o: nat, s: seq<byte>)
      requires o + |s| <= bytes.Length
      modifies bytes
      ensures bytes[o..o + |s|] == s
      ensures forall i :: 0 <= i < bytes.Length && !(o <= i < o + |s|) ==> bytes[i] == old(bytes[i])
    {
      forall i | 0 <= i < |s| {
        bytes[o + i] := s[i];
      }
    }

    /** Copies a name in front of what lies from `position` up to `end`. */
    method CopyInFront(s: seq<byte>, position: nat, end: nat) returns (start: nat)
      requires |s| <= position <= end <= bytes.Length
      modifies bytes
      ensures start == position - |s| && bytes[start..end] == s + old(bytes[position..end])
      ensures forall i :: 0 <= i < start ==> bytes[i] == old(bytes[i])
    {
      start := position - |s|;
      CopyTo(start, s);
      assert bytes[position..end] == old(bytes[position..end]);
    }

    /** The second walk, which copies the names in front of `at`, backwards. */
    method CopyNames(f: FileObject, start: nat, at: nat)
      requires !f.closed && at == start + |Path(Chain(f))| <= bytes.Length
      modifies bytes
      ensures bytes[start..at] == Path(Chain(f))
      ensures forall i :: 0 <= i < start ==> bytes[i] == old(bytes[i])
    {
      ghost var names := Chain(f);
      ghost var k := 0;
      var position, current := at, Some(f);
      while current.Some? && !current.value.closed
        invariant k <= |names| && names[k..] == (if current.Some? then Chain(current.value) else [])
        invariant position == start + |Path(names[k..])|
        invariant start <= position <= at && bytes[position..at] == Path(names[..k])
        invariant forall i :: 0 <= i < start ==> bytes[i] == old(bytes[i])
        decreases |names| - k
      {
        PathAppend(names, k);
        var name := current.value.name;
        assert name == names[k];
        position := CopyInFront(name, position, at);
        current := current.value.related;
        k := k + 1;
      }
      assert names[k..] == [] && names[..k] == names;
    }
  }

  /** The first walk. */
  method MeasureNames(f: FileObject) returns (length: nat)
    requires !f.closed
    ensures length == |Path(Chain(f))|
  {
    ghost var names := Chain(f);
    ghost var k := 0;
    length := 0;
    var current := Some(f);
    while current.Some? && !current.value.closed
      invariant k <= |names| && names[k..] == (if current.Some? then Chain(current.value) else [])
      invariant length == |Path(names[..k])|
      decreases |names| - k
    {
      PathAppend(names, k);
      length := length + |current.value.name|;
      current := current.value.related;
      k := k + 1;
    }
    assert names[..k] == names;
  }

  /** ObQueryNameString into the buffer. */
  method QueryDevice(device: Device, buffer: NameBuffer?) returns (status: Status, returnLength: nat)
    requires buffer != null ==> buffer.bytes.Length >= HEADER && buffer.length == 0
    modifies if buffer == null then {} else {buffer, buffer.bytes}
    ensures returnLength == DeviceLength(device)
    ensures status == Success <==> device.Known? && buffer != null && returnLength <= buffer.bytes.Length
    ensures status == OtherFailure <==> device.Failing?
    ensures status == Success ==>
      && buffer.length == |device.name|
      && buffer.bytes[HEADER..HEADER + |device.name|] == device.name
    ensures status != Success && buffer != null ==> buffer.length == 0
  {
    returnLength := DeviceLength(device);
    if device.Failing? {
      return OtherFailure, returnLength;
    }
    if buffer == null || returnLength > buffer.bytes.Length {
      return BufferTooSmall, returnLength;
    }
    buffer.CopyTo(HEADER, device.name);
    buffer.length := |device.name|;
    buffer.maximumLength := returnLength - HEADER;
    status := Success;
  }

  /** The bytes of the buffer that the whole name takes. */
  ghost predicate Holds(buffer: NameBuffer, name: seq<byte>)
    reads buffer, buffer.bytes
  {
    && HEADER + |name| <= buffer.bytes.Length && buffer.bytes[HEADER..HEADER + |name|] == name
    && buffer.length == |name| % 0x1_0000
  }

  /** KphpExtractNameFileObject. */
  method ExtractName(f: FileObject, buffer: NameBuffer?) returns (status: Status, returnLength: nat)
    requires Needed(f) < 0x1_0000_0000 && |DeviceName(f)| < 0x1_0000
    requires buffer != null ==> NoOverrun(f, buffer.bytes.Length)
    modifies if buffer == null then {} else {buffer, buffer.bytes}
    ensures f.closed ==> status == FileClosed && returnLength == 0
    ensures !f.closed && buffer != null && buffer.bytes.Length < HEADER ==>
      status == BufferTooSmall && returnLength == HEADER
    ensures !f.closed && (buffer == null || buffer.bytes.Length >= HEADER) ==>
      && returnLength == Needed(f)
      && status == (if buffer == null || Needed(f) > buffer.bytes.Length then BufferTooSmall
                    else if QueryFails(f) && !f.named then OtherFailure else Success)
    ensures status == Success ==>
      buffer != null && Holds(buffer, FullName(f)) && (buffer.length == |FullName(f)| <==> |FullName(f)| < 0x1_0000)
  {
    if f.closed {
      return FileClosed, 0;
    }
    if buffer != null {
      if buffer.bytes.Length < HEADER {
        return BufferTooSmall, HEADER;
      }
      buffer.length, buffer.maximumLength := 0, (buffer.bytes.Length - HEADER) % 0x1_0000;
    }
    var usedLength: nat;
    status, usedLength := NameDevice(f, buffer);
    if !f.named {
      if buffer == null || usedLength > buffer.bytes.Length {
        status := BufferTooSmall;
      }
      assert DeviceName(f) + [] == DeviceName(f);
      return status, usedLength;
    }
    var subNameLength := MeasureNames(f);
    usedLength := usedLength + subNameLength;
    if buffer == null || usedLength > buffer.bytes.Length {
      return BufferTooSmall, usedLength;
    }
    AppendNames(f, buffer, subNameLength);
    return Success, usedLength;
  }

  /** The name of the device, if there is one, is written first. */
  method NameDevice(f: FileObject, buffer: NameBuffer?) returns (status: Status, usedLength: nat)
    requires !f.closed && |DeviceName(f)| < 0x1_0000
    requires buffer != null ==> buffer.bytes.Length >= HEADER && buffer.length == 0
    modifies if buffer == null then {} else {buffer, buffer.bytes}
    ensures usedLength == Base(f)
    ensures buffer != null && usedLength <= buffer.bytes.Length ==>
      status == (if QueryFails(f) then OtherFailure else Success) && Holds(buffer, DeviceName(f))
  {
    if f.device.None? {
      return Success, HEADER;
    }
    status, usedLength := QueryDevice(f.device.value, buffer);
  }

  /** The names along the chain are written behind it. */
  method AppendNames(f: FileObject, buffer: NameBuffer, subNameLength: nat)
    requires !f.closed && subNameLength == |Path(Chain(f))| && |DeviceName(f)| < 0x1_0000
    requires Holds(buffer, DeviceName(f)) && HEADER + |DeviceName(f)| + subNameLength <= buffer.bytes.Length
    modifies buffer, buffer.bytes
    ensures Holds(buffer, DeviceName(f) + Path(Chain(f)))
  {
    var objectName := HEADER + buffer.length;
    ghost var before := buffer.bytes[..];
    buffer.CopyNames(f, objectName, objectName + subNameLength);
    assert buffer.bytes[HEADER..objectName] == before[HEADER..objectName];
    Appended(buffer.bytes[..], HEADER, DeviceName(f), Path(Chain(f)));
    Truncated(buffer.length, subNameLength);
    buffer.length := (buffer.length + subNameLength % 0x1_0000) % 0x1_0000;
    buffer.maximumLength := (buffer.bytes.Length - HEADER) % 0x1_0000;
  }

  lemma Truncated(a: nat, b: nat)
    ensures (a + b % 0x1_0000) % 0x1_0000 == (a + b) % 0x1_0000
  {
  }

  lemma Appended(b: seq<byte>, o: nat, a: seq<byte>, c: seq<byte>)
    requires o + |a| + |c| <= |b| && b[o..o + |a|] == a && b[o + |a|..o + |a| + |c|] == c
    ensures b[o..o + |a + c|] == a + c
  {
  }
}
