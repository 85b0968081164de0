/**
 What is read of the optional header of a PE image in a mapped file.  Its fields are
 those of "Optional Header" in Microsoft's "PE Format", without padding in between; a
 PE32+ has no BaseOfData, and wider fields for addresses and sizes of memory.
 */
module ImageHeaders {
  import opened EaRecords
  import opened HashRegions
  import opened Wrappers

  /** The size of the fields that depend on the format. */
  function Native(wide: bool): nat {
    if wide then 8 else 4
  }

  /** The size of the fields in front of the check sum. */
  function CheckSumOffset(wide: bool): (o: nat)
    ensures o == 64
  {
    2                                 // Magic
    + 1 + 1                           // MajorLinkerVersion, MinorLinkerVersion
    + 4 + 4 + 4                       // SizeOfCode, SizeOfInitializedData, SizeOfUninitializedData
    + 4 + 4                           // AddressOfEntryPoint, BaseOfCode
    + (if wide then 0 else 4)         // BaseOfData
    + Native(wide)                    // ImageBase
    + 4 + 4                           // SectionAlignment, FileAlignment
    + 2 + 2                           // MajorOperatingSystemVersion, MinorOperatingSystemVersion
    + 2 + 2                           // MajorImageVersion, MinorImageVersion
    + 2 + 2                           // MajorSubsystemVersion, MinorSubsystemVersion
    + 4 + 4 + 4                       // Win32VersionValue, SizeOfImage, SizeOfHeaders
  }

  const CHECK_SUM_SIZE: nat := 4

  /** And of those in front of the number of data directories. */
  function NumberOffset(wide: bool): (o: nat)
    ensures o == if wide then 108 else 92
  {
    CheckSumOffset(wide) + CHECK_SUM_SIZE
    + 2 + 2                           // Subsystem, DllCharacteristics
    + Native(wide) + Native(wide)     // SizeOfStackReserve, SizeOfStackCommit
    + Native(wide) + Native(wide)     // SizeOfHeapReserve, SizeOfHeapCommit
    + 4                               // LoaderFlags
  }

  const DIRECTORY_SIZE: nat := 4 + 4  // VirtualAddress, Size
  const SECURITY: nat := 4

  /** And of those in front of an entry of the data directory. */
  function DirectoryOffset(wide: bool, entry: nat): (o: nat)
    ensures o == 8 * entry + if wide then 112 else 96
  {
    NumberOffset(wide) + 4 + entry * DIRECTORY_SIZE
  }

  /** What the headers of a mapped file say; `optional` is the address of the
      optional header, `wide` tells a PE32+ from a PE32, and the last two fields
      are the security directory entry. */
  datatype Header =
    | NoHeaders
    | OtherMagic
    | Image(optional: nat, wide: bool, directories: nat, address: nat, size: nat)

  /** The mapping contains n bytes at address a. */
  predicate Mapped(v: View, a: nat, n: nat) {
    v.base <= a && a + n <= End(v)
  }

  function UshortAt(v: View, a: nat): nat {
    if Mapped(v, a, 2) then Ushort(v.data, a - v.base) else 0
  }

  function UlongAt(v: View, a: nat): nat {
    if Mapped(v, a, 4) then Ulong(v.data, a - v.base) else 0
  }

  const MAGIC32: nat := 0x10b
  const MAGIC64: nat := 0x20b

  /** The headers in the bytes of a mapped file, whose optional header is at an address
      if it has one. */
  function HeaderOf(v: View, optional: Option<nat>): Header {
    match optional
    case None => NoHeaders
    case Some(o) =>
      var magic := UshortAt(v, o);
      if magic == MAGIC32 then HeaderAt(v, o, false)
      else if magic == MAGIC64 then HeaderAt(v, o, true)
      else OtherMagic
  }

  function HeaderAt(v: View, o: nat, wide: bool): Header {
    var n, entry := UlongAt(v, o + NumberOffset(wide)), o + DirectoryOffset(wide, SECURITY);
    Image(o, wide, n, if n > SECURITY then UlongAt(v, entry) else 0, if n > SECURITY then UlongAt(v, entry + 4) else 0)
  }
}
