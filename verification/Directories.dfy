/** filesys/directory.cc: a fixed table of file names and header locations. */
module Directories {
  import opened Bytes
  import opened DiskImages
  import opened FileHeaders
  import opened OpenFiles

  const FILE_NAME_MAX_LEN := 11
  const ENTRY_SIZE := 20

  /** A C string without its terminating NUL */
  type CString = s: seq<byte> | 0 !in s

  type NameBuffer = s: seq<byte> | |s| == FILE_NAME_MAX_LEN + 1
    witness seq(FILE_NAME_MAX_LEN + 1, _ => 0)

  const EMPTY_NAME: NameBuffer := seq(FILE_NAME_MAX_LEN + 1, _ => 0)

  /** One table entry, with the two bytes the compiler pads it with */
  datatype Entry = Entry(kind: byte, inUse: bool, pad0: byte, pad1: byte, sector: int32, name: NameBuffer)

  /** Names are told apart by their first 11 characters only. */
  function Key(name: CString): CString {
    if |name| <= FILE_NAME_MAX_LEN then name else name[..FILE_NAME_MAX_LEN]
  }

  function CharAt(name: CString, i: nat): byte {
    if i < |name| then name[i] else 0
  }

  /** C's `!strncmp(buffer, name, 11)`, from index `i` on */
  predicate StrnEqual(buffer: NameBuffer, name: CString, i: nat)
    requires i <= FILE_NAME_MAX_LEN && i <= |name|
    decreases FILE_NAME_MAX_LEN - i
  {
    if i == FILE_NAME_MAX_LEN then true
    else if buffer[i] != CharAt(name, i) then false
    else if buffer[i] == 0 then true
    else StrnEqual(buffer, name, i + 1)
  }

  /** C's `strncpy(buffer, name, 11)` */
  function StrnCopy(buffer: NameBuffer, name: CString): NameBuffer {
    seq(FILE_NAME_MAX_LEN + 1, i requires 0 <= i <= FILE_NAME_MAX_LEN =>
      if i < FILE_NAME_MAX_LEN then CharAt(name, i) else buffer[i])
  }

  /** C's `bzero(buffer, 11)` */
  function Zeroed(buffer: NameBuffer): NameBuffer {
    seq(FILE_NAME_MAX_LEN + 1, i requires 0 <= i <= FILE_NAME_MAX_LEN =>
      if i < FILE_NAME_MAX_LEN then 0 else buffer[i])
  }

  /** The name a buffer stores: up to the first NUL or 11 characters, from index `i` on */
  function NameFrom(buffer: NameBuffer, i: nat): CString
    requires i <= FILE_NAME_MAX_LEN
    decreases FILE_NAME_MAX_LEN - i
  {
    if i == FILE_NAME_MAX_LEN || buffer[i] == 0 then [] else [buffer[i]] + NameFrom(buffer, i + 1)
  }

  function NameOf(buffer: NameBuffer): CString {
    NameFrom(buffer, 0)
  }

  /** The library comparison is equality of stored name and key. */
  lemma {:induction false} StrnEqualMeaning(buffer: NameBuffer, name: CString, i: nat)
    requires i <= FILE_NAME_MAX_LEN && i <= |name|
    ensures StrnEqual(buffer, name, i) <==> NameFrom(buffer, i) == Key(name)[i..]
    decreases FILE_NAME_MAX_LEN - i
  {
    var key := Key(name);
    if i < FILE_NAME_MAX_LEN && i < |name| {
      assert name[i] in name;
      assert key[i..] == [name[i]] + key[i + 1..];
      if buffer[i] == name[i] {
        StrnEqualMeaning(buffer, name, i + 1);
      }
    } else {
      assert key[i..] == [];
    }
  }

  lemma {:induction false} CopiedName(buffer: NameBuffer, name: CString, i: nat)
    requires i <= FILE_NAME_MAX_LEN && i <= |name|
    ensures NameFrom(StrnCopy(buffer, name), i) == Key(name)[i..]
    decreases FILE_NAME_MAX_LEN - i
  {
    if i < FILE_NAME_MAX_LEN && i < |name| {
      assert name[i] in name;
      CopiedName(buffer, name, i + 1);
      assert Key(name)[i..] == [name[i]] + Key(name)[i + 1..];
    }
  }

  predicate Holds(e: Entry, key: CString) {
    e.inUse && NameOf(e.name) == key
  }

  /** `r` is what a search for `key` should answer. */
  predicate IsIndexOf(entries: seq<Entry>, key: CString, r: int) {
    if r == -1 then forall i :: 0 <= i < |entries| ==> !Holds(entries[i], key)
    else 0 <= r < |entries| && Holds(entries[r], key) && forall i :: 0 <= i < r ==> !Holds(entries[i], key)
  }

  /** `r` is the lowest unused entry, or -1. */
  predicate IsFirstUnused(entries: seq<Entry>, r: int) {
    if r == -1 then forall i :: 0 <= i < |entries| ==> entries[i].inUse
    else 0 <= r < |entries| && !entries[r].inUse && forall i :: 0 <= i < r ==> entries[i].inUse
  }

  function EncodeEntry(e: Entry): (bs: seq<byte>)
    ensures |bs| == ENTRY_SIZE
  {
    [e.kind, if e.inUse then 1 else 0, e.pad0, e.pad1] + EncodeInts([e.sector]) + e.name
  }

  function DecodeEntry(bs: seq<byte>): Entry
    requires |bs| == ENTRY_SIZE
  {
    Entry(bs[0], bs[1] != 0, bs[2], bs[3], DecodeInts(bs[4..8])[0], bs[8..])
  }

  function EncodeTable(entries: seq<Entry>): (bs: seq<byte>)
    ensures |bs| == ENTRY_SIZE * |entries|
  {
    seq(ENTRY_SIZE * |entries|, i requires 0 <= i < ENTRY_SIZE * |entries| =>
      EncodeEntry(entries[i / ENTRY_SIZE])[i % ENTRY_SIZE])
  }

  function DecodeTable(bs: seq<byte>): seq<Entry> {
    seq(|bs| / ENTRY_SIZE, i requires 0 <= i < |bs| / ENTRY_SIZE =>
      DecodeEntry(bs[ENTRY_SIZE * i..ENTRY_SIZE * i + ENTRY_SIZE]))
  }

  lemma EntryRoundTrip(e: Entry)
    ensures DecodeEntry(EncodeEntry(e)) == e
  {
    var bs := EncodeEntry(e);
    assert bs[4..8] == EncodeInts([e.sector]);
    assert bs[8..] == e.name;
    IntsRoundTrip([e.sector]);
  }

  lemma EntrySlice(entries: seq<Entry>, i: nat)
    requires i < |entries|
    ensures EncodeTable(entries)[ENTRY_SIZE * i..ENTRY_SIZE * i + ENTRY_SIZE] == EncodeEntry(entries[i])
  {
    hide EncodeEntry;
    var slice := EncodeTable(entries)[ENTRY_SIZE * i..ENTRY_SIZE * i + ENTRY_SIZE];
    forall k | 0 <= k < ENTRY_SIZE
      ensures slice[k] == EncodeEntry(entries[i])[k]
    {
      assert (ENTRY_SIZE * i + k) / ENTRY_SIZE == i && (ENTRY_SIZE * i + k) % ENTRY_SIZE == k;
    }
  }

  /** FetchFrom after WriteBack gives back the same table. */
  lemma TableRoundTrip(entries: seq<Entry>)
    ensures DecodeTable(EncodeTable(entries)) == entries
  {
    hide EncodeEntry, DecodeEntry, EncodeTable;
    forall i | 0 <= i < |entries| ensures DecodeTable(EncodeTable(entries))[i] == entries[i] {
      EntrySlice(entries, i);
      EntryRoundTrip(entries[i]);
    }
  }

  class Directory {
    const table: array<Entry>

    constructor (size: nat)
      ensures fresh(table) && table.Length == size
      ensures forall i :: 0 <= i < size ==> !table[i].inUse && table[i].name == EMPTY_NAME
    {
      table := new Entry[size];
      new;
      for i := 0 to table.Length
        invariant forall j :: 0 <= j < i ==> !table[j].inUse && table[j].name == EMPTY_NAME
      {
        table[i] := table[i].(inUse := false, name := EMPTY_NAME);
      }
    }

    method FetchFrom(file: OpenFile)
      requires file.Valid()
      modifies table
      ensures |file.Contents()| == ENTRY_SIZE * table.Length ==> table[..] == DecodeTable(file.Contents())
    {
      var bytes := EncodeTable(table[..]);
      hide EncodeTable, DecodeTable, FileBytes, DataBlocks, Good, NoDup;
      var raw := new byte[|bytes|];
      Bcopy(bytes, raw, 0);
      ghost var before := raw[..];
      var n := file.ReadAt(raw, 0, raw.Length, 0);
      WholeRead(file.Contents(), before, raw[..], n);
      Load(raw[..]);
    }

    /** Reinterpret raw bytes as the table. */
    method Load(raw: seq<byte>)
      requires |raw| == ENTRY_SIZE * table.Length
      modifies table
      ensures table[..] == DecodeTable(raw)
    {
      for i := 0 to table.Length
        invariant forall j :: 0 <= j < i ==> table[j] == DecodeTable(raw)[j]
      {
        table[i] := DecodeEntry(raw[ENTRY_SIZE * i..ENTRY_SIZE * i + ENTRY_SIZE]);
      }
    }

    method WriteBack(file: OpenFile)
      requires file.Valid()
      modifies file.disk
      ensures |file.Contents()| == ENTRY_SIZE * table.Length > 0 ==>
        Wrote(old(file.disk.image), file.disk.image, file.hdr.Value(), 0, EncodeTable(table[..]))
    {
      var bytes := EncodeTable(table[..]);
      var n := file.WriteAt(bytes, |bytes|, 0);
      assert bytes[..|bytes|] == bytes;
    }

    method FindIndex(name: CString) returns (r: int)
      ensures IsIndexOf(table[..], Key(name), r)
    {
      for i := 0 to table.Length
        invariant forall j :: 0 <= j < i ==> !Holds(table[j], Key(name))
      {
        StrnEqualMeaning(table[i].name, name, 0);
        if table[i].inUse && StrnEqual(table[i].name, name, 0) {
          return i;
        }
      }
      return -1;
    }

    method Find(name: CString) returns (sector: int, ghost index: int)
      ensures IsIndexOf(table[..], Key(name), index)
      ensures sector == if index == -1 then -1 else table[index].sector
      ensures IsIndexOf(table[..], Key(name), -1) ==> sector == -1
      ensures forall i :: 0 <= i < table.Length && IsIndexOf(table[..], Key(name), i) ==> sector == table[i].sector
    {
      var i := FindIndex(name);
      index := i;
      if i != -1 {
        return table[i].sector, i;
      }
      return -1, i;
    }

    /** Add a name, unless it is there already or the table is full. */
    method Add(name: CString, newSector: int32) returns (ok: bool, ghost index: int)
      modifies table
      ensures ok <==> IsIndexOf(old(table[..]), Key(name), -1) && !IsFirstUnused(old(table[..]), -1)
      ensures !ok ==> table[..] == old(table[..])
      ensures ok ==> index != -1 && IsFirstUnused(old(table[..]), index)
      ensures ok ==> table[..] == old(table[..])[index := table[index]]
      ensures ok ==> Holds(table[index], Key(name)) && table[index].sector == newSector
    {
      index := -1;
      var found := FindIndex(name);
      if found != -1 {
        return false, -1;
      }
      for i := 0 to table.Length
        invariant forall j :: 0 <= j < i ==> table[j].inUse
        invariant table[..] == old(table[..])
      {
        if !table[i].inUse {
          CopiedName(table[i].name, name, 0);
          table[i] := table[i].(inUse := true, name := StrnCopy(table[i].name, name), sector := newSector);
          return true, i;
        }
      }
      return false, -1;
    }

    method Remove(name: CString) returns (ok: bool, ghost index: int)
      modifies table
      ensures IsIndexOf(old(table[..]), Key(name), index) && (ok <==> index != -1)
      ensures !ok ==> table[..] == old(table[..])
      ensures ok ==> table[..] == old(table[..])[index := table[index]] && !table[index].inUse
    {
      var i := FindIndex(name);
      if i == -1 {
        return false, i;
      }
      table[i] := table[i].(inUse := false, name := Zeroed(table[i].name));
      return true, i;
    }
  }
}
