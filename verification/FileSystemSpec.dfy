/** What a disk image means as a file system, and which images are sound.

    The free map and the directory are files on the disk they describe, so every
    definition here reads them back through their own headers. */
module FileSystemSpec {
  import opened Bytes
  import opened BitMaps
  import opened DiskImages
  import opened FileHeaders
  import opened OpenFiles
  import opened Directories

  const FREE_MAP_SECTOR := 0
  const DIRECTORY_SECTOR := 1
  const FREE_MAP_FILE_SIZE := NUM_SECTORS / 8
  const NUM_DIR_ENTRIES := 10
  const DIRECTORY_FILE_SIZE := ENTRY_SIZE * NUM_DIR_ENTRIES

  /** Slots 0 and 1 are the free map and the directory file, slot i + 2 is directory entry i. */
  const NUM_SLOTS := 2 + NUM_DIR_ENTRIES

  datatype File = File(sector: int, inode: Inode)

  /** All sectors a file occupies: its header and its data blocks */
  function Sectors(f: File): seq<int>
    requires Good(f.inode)
  {
    [f.sector] + DataBlocks(f.inode)
  }

  function HeaderAt(d: Image, sector: int): Inode
    requires 0 <= sector < NUM_SECTORS
  {
    DecodeHeader(d[sector])
  }

  predicate SystemFiles(d: Image) {
    var free, dir := HeaderAt(d, FREE_MAP_SECTOR), HeaderAt(d, DIRECTORY_SECTOR);
    && Good(free) && free.numBytes == FREE_MAP_FILE_SIZE
    && Good(dir) && dir.numBytes == DIRECTORY_FILE_SIZE
  }

  /** The on-disk free map: which sectors are marked */
  function FreeMap(d: Image): (bits: seq<bool>)
    requires SystemFiles(d)
    ensures |bits| == NUM_SECTORS
  {
    Unpack(DecodeWords(FileBytes(d, HeaderAt(d, FREE_MAP_SECTOR))), NUM_SECTORS)
  }

  /** The on-disk directory */
  function Table(d: Image): (entries: seq<Entry>)
    requires SystemFiles(d)
    ensures |entries| == NUM_DIR_ENTRIES
  {
    DecodeTable(FileBytes(d, HeaderAt(d, DIRECTORY_SECTOR)))
  }

  predicate InRange(entries: seq<Entry>) {
    forall i :: 0 <= i < |entries| && entries[i].inUse ==> 0 <= entries[i].sector < NUM_SECTORS
  }

  predicate SlotUsed(entries: seq<Entry>, a: nat)
    requires |entries| == NUM_DIR_ENTRIES
  {
    a < 2 || (a < NUM_SLOTS && entries[a - 2].inUse)
  }

  function SlotSector(entries: seq<Entry>, a: nat): int
    requires |entries| == NUM_DIR_ENTRIES && SlotUsed(entries, a)
  {
    if a < 2 then a else entries[a - 2].sector
  }

  /** The files a directory names, with the headers found at their sectors */
  function FilesOf(d: Image, entries: seq<Entry>): (files: map<nat, File>)
    requires |entries| == NUM_DIR_ENTRIES && InRange(entries)
    ensures forall a :: a in files <==> SlotUsed(entries, a)
    ensures forall a :: a in files ==>
      files[a].sector == SlotSector(entries, a) && files[a].inode == HeaderAt(d, files[a].sector)
  {
    map a | 0 <= a < NUM_SLOTS && SlotUsed(entries, a) ::
      File(SlotSector(entries, a), HeaderAt(d, SlotSector(entries, a)))
  }

  /** Every file on the disk, by slot */
  function Files(d: Image): map<nat, File>
    requires SystemFiles(d) && InRange(Table(d))
  {
    FilesOf(d, Table(d))
  }

  /** Every file is well formed, and no sector belongs to two files or twice to one. */
  ghost predicate Disjoint(files: map<nat, File>) {
    && (forall a :: a in files ==>
         0 <= files[a].sector < NUM_SECTORS && Good(files[a].inode) && NoDup(Sectors(files[a])))
    && (forall a, b, s :: a in files && b in files && a != b && s in Sectors(files[a]) ==> s !in Sectors(files[b]))
  }

  ghost predicate Occupied(files: map<nat, File>, s: int)
    requires Disjoint(files)
  {
    exists a :: a in files && s in Sectors(files[a])
  }

  ghost predicate UniqueNames(entries: seq<Entry>) {
    forall i, j :: 0 <= i < j < |entries| && entries[i].inUse && entries[j].inUse ==>
      NameOf(entries[i].name) != NameOf(entries[j].name)
  }

  /** The free map and directory files are where they belong and have their sizes. */
  ghost predicate HasSystemFiles(files: map<nat, File>) {
    && 0 in files && files[0].sector == FREE_MAP_SECTOR && files[0].inode.numBytes == FREE_MAP_FILE_SIZE
    && 1 in files && files[1].sector == DIRECTORY_SECTOR && files[1].inode.numBytes == DIRECTORY_FILE_SIZE
  }

  /** The files are those the directory names, at the sectors it gives. */
  ghost predicate SlotsMatch(entries: seq<Entry>, files: map<nat, File>)
    requires |entries| == NUM_DIR_ENTRIES
  {
    && (forall a :: a in files <==> SlotUsed(entries, a))
    && (forall a :: a in files ==> files[a].sector == SlotSector(entries, a))
  }

  /** A free map, a directory and a set of files that fit together: the marked sectors
      are exactly the occupied ones. */
  ghost predicate Sound(bits: seq<bool>, entries: seq<Entry>, files: map<nat, File>) {
    && |bits| == NUM_SECTORS && |entries| == NUM_DIR_ENTRIES
    && UniqueNames(entries) && HasSystemFiles(files) && Disjoint(files)
    && SlotsMatch(entries, files)
    && (forall s :: 0 <= s < NUM_SECTORS ==> (bits[s] <==> Occupied(files, s)))
  }

  /** A sound file system on disk */
  ghost predicate Consistent(d: Image) {
    SystemFiles(d) && InRange(Table(d)) && Sound(FreeMap(d), Table(d), Files(d))
  }

  /** What a user sees: named flat files */
  type Model = map<CString, seq<byte>>

  function Names(entries: seq<Entry>): set<CString> {
    set i | 0 <= i < |entries| && entries[i].inUse :: NameOf(entries[i].name)
  }

  /** The entry that holds `key`, searching from `i` on */
  function Search(entries: seq<Entry>, key: CString, i: nat): (r: int)
    requires i <= |entries|
    ensures r == -1 ==> forall j :: i <= j < |entries| ==> !Holds(entries[j], key)
    ensures r != -1 ==> i <= r < |entries| && Holds(entries[r], key) && forall j :: i <= j < r ==> !Holds(entries[j], key)
    decreases |entries| - i
  {
    if i == |entries| then -1
    else if Holds(entries[i], key) then i
    else Search(entries, key, i + 1)
  }

  /** The bytes of every file, by slot */
  ghost function SlotBytes(d: Image, files: map<nat, File>): map<nat, seq<byte>>
    requires Disjoint(files)
  {
    map a | a in files :: FileBytes(d, files[a].inode)
  }

  ghost predicate Covers(entries: seq<Entry>, bytes: map<nat, seq<byte>>) {
    forall i :: 0 <= i < |entries| && entries[i].inUse ==> i + 2 in bytes.Keys
  }

  ghost function ValueOf(entries: seq<Entry>, bytes: map<nat, seq<byte>>, key: CString): seq<byte>
    requires Covers(entries, bytes)
  {
    var r := Search(entries, key, 0);
    if r == -1 then [] else bytes[r + 2]
  }

  /** The named files, given the directory and each slot's bytes */
  ghost function ViewOf(entries: seq<Entry>, bytes: map<nat, seq<byte>>): Model
    requires Covers(entries, bytes)
  {
    map key | key in Names(entries) :: ValueOf(entries, bytes, key)
  }

  ghost function View(d: Image): Model
    requires Consistent(d)
  {
    ViewOf(Table(d), SlotBytes(d, Files(d)))
  }

  lemma SearchUnique(entries: seq<Entry>, key: CString, i: nat)
    requires UniqueNames(entries) && i < |entries| && Holds(entries[i], key)
    ensures key in Names(entries) && Search(entries, key, 0) == i
  {
  }

  lemma NamesAre(entries: seq<Entry>, key: CString)
    ensures key in Names(entries) <==> !IsIndexOf(entries, key, -1)
    ensures key in Names(entries) <==> Search(entries, key, 0) != -1
  {
  }

  /** A file whose sectors did not change still reads the same. */
  lemma Untouched(d: Image, d': Image, f: File)
    requires 0 <= f.sector < NUM_SECTORS && f.inode == HeaderAt(d, f.sector) && Good(f.inode)
    requires forall s :: s in Sectors(f) ==> d'[s] == d[s]
    ensures HeaderAt(d', f.sector) == f.inode && FileBytes(d', f.inode) == FileBytes(d, f.inode)
  {
    assert Sectors(f)[0] == f.sector;
    forall i | 0 <= i < Length(f.inode)
      ensures FileBytes(d', f.inode)[i] == FileBytes(d, f.inode)[i]
    {
      assert Sectors(f)[i / SECTOR_SIZE + 1] == f.inode.sectors[i / SECTOR_SIZE];
    }
  }
}
