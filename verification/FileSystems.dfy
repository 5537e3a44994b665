/** filesys/filesys.cc: the operations themselves, proved against the steps. */
module FileSystems {
  import opened Bytes
  import opened BitMaps
  import opened DiskImages
  import opened FileHeaders
  import opened OpenFiles
  import opened Directories
  import opened FileSystemSpec
  import opened FileSystemSteps
  import opened FileSystemRuns

  /** BitMap::FetchFrom */
  method FetchBitMap(m: BitMap, file: OpenFile)
    requires m.Valid() && file.Valid()
    modifies m.words
    ensures |file.Contents()| == 4 * m.words.Length ==> m.words[..] == DecodeWords(file.Contents())
  {
    var bytes := EncodeWords(m.words[..]);
    assert |bytes| == 4 * m.words.Length;
    hide EncodeWords, DecodeWords, FileBytes, DataBlocks, Good, NoDup;
    var raw := new byte[|bytes|];
    Bcopy(bytes, raw, 0);
    ghost var before := raw[..];
    var n := file.ReadAt(raw, 0, raw.Length, 0);
    WholeRead(file.Contents(), before, raw[..], n);
    LoadWords(m, raw[..]);
  }

  method LoadWords(m: BitMap, raw: seq<byte>)
    requires |raw| == 4 * m.words.Length
    modifies m.words
    ensures m.words[..] == DecodeWords(raw)
  {
    for i := 0 to m.words.Length
      invariant forall j :: 0 <= j < i ==> m.words[j] == DecodeWords(raw)[j]
    {
      m.words[i] := WordOf(raw[4 * i], raw[4 * i + 1], raw[4 * i + 2], raw[4 * i + 3]);
    }
  }

  /** BitMap::WriteBack */
  method WriteBackBitMap(m: BitMap, file: OpenFile)
    requires m.Valid() && file.Valid()
    modifies file.disk
    ensures |file.Contents()| == 4 * m.words.Length > 0 ==>
      Wrote(old(file.disk.image), file.disk.image, file.hdr.Value(), 0, EncodeWords(m.words[..]))
  {
    var bytes := EncodeWords(m.words[..]);
    var n := file.WriteAt(bytes, |bytes|, 0);
    assert bytes[..|bytes|] == bytes;
  }

  class FileSystem {
    const disk: SynchDisk
    const freeMapFile: OpenFile
    const directoryFile: OpenFile

    /** The two system files are open, and their in-memory headers are the ones on disk. */
    ghost predicate Opened()
      reads disk, freeMapFile.hdr, freeMapFile.hdr.dataSectors, directoryFile.hdr, directoryFile.hdr.dataSectors
    {
      && freeMapFile.disk == disk && freeMapFile.hdr.Valid()
      && freeMapFile.hdr.Value() == HeaderAt(disk.image, FREE_MAP_SECTOR)
      && directoryFile.disk == disk && directoryFile.hdr.Valid()
      && directoryFile.hdr.Value() == HeaderAt(disk.image, DIRECTORY_SECTOR)
    }

    ghost predicate Valid()
      reads disk, freeMapFile.hdr, freeMapFile.hdr.dataSectors, directoryFile.hdr, directoryFile.hdr.dataSectors
    {
      Opened() && Consistent(disk.image)
    }

    lemma SystemFilesValid()
      requires Valid()
      ensures freeMapFile.Valid() && directoryFile.Valid()
      ensures |freeMapFile.Contents()| == FREE_MAP_FILE_SIZE && |directoryFile.Contents()| == DIRECTORY_FILE_SIZE
      ensures SystemFiles(disk.image) && InRange(Table(disk.image))
    {
      var files := Files(disk.image);
      DataDistinct(files[0]);
      DataDistinct(files[1]);
    }

    /** Use the file system already on the disk. */
    constructor (disk: SynchDisk)
      requires Consistent(disk.image)
      ensures Valid() && this.disk == disk
      ensures fresh(freeMapFile) && fresh(freeMapFile.hdr) && fresh(freeMapFile.hdr.dataSectors)
      ensures fresh(directoryFile) && fresh(directoryFile.hdr) && fresh(directoryFile.hdr.dataSectors)
    {
      this.disk := disk;
      freeMapFile := new OpenFile(disk, FREE_MAP_SECTOR);
      directoryFile := new OpenFile(disk, DIRECTORY_SECTOR);
    }

    /** Lay out an empty file system; whatever was on the disk is lost. */
    constructor Format(disk: SynchDisk, now: Stamp)
      modifies disk
      ensures Valid() && this.disk == disk && View(disk.image) == map[]
      ensures forall s :: 0 <= s < NUM_SECTORS ==> (FreeMap(disk.image)[s] <==> s < 5)
    {
      hide DecodeHeader, Unpack, Consistent, View, FreeMap, LaidOut;
      this.disk := disk;
      var freeMap := new BitMap(NUM_SECTORS);
      var directory := new Directory(NUM_DIR_ENTRIES);
      LayOut(disk, freeMap, now);
      freeMapFile := new OpenFile(disk, FREE_MAP_SECTOR);
      directoryFile := new OpenFile(disk, DIRECTORY_SECTOR);
      new;
      StoreFresh(directory, freeMap);
    }

    /** Store the first free map and the empty directory. */
    lemma FreshFilesValid()
      requires Opened() && LaidOut(disk.image)
      ensures freeMapFile.Valid() && directoryFile.Valid()
      ensures freeMapFile.hdr.numBytes == FREE_MAP_FILE_SIZE && directoryFile.hdr.numBytes == DIRECTORY_FILE_SIZE
    {
      hide DecodeHeader;
    }

    method StoreFresh(directory: Directory, freeMap: BitMap)
      requires Opened() && LaidOut(disk.image) && freeMap.Valid() && freeMap.numBits == NUM_SECTORS
      requires directory.table.Length == NUM_DIR_ENTRIES
      requires forall i :: 0 <= i < NUM_DIR_ENTRIES ==> !directory.table[i].inUse
      requires forall s :: 0 <= s < NUM_SECTORS ==> (freeMap.Contents()[s] <==> s < 5)
      modifies disk
      ensures Valid() && View(disk.image) == map[]
      ensures forall s :: 0 <= s < NUM_SECTORS ==> (FreeMap(disk.image)[s] <==> s < 5)
    {
      hide LaidOut, DecodeHeader, Unpack, WroteMap, WroteTable, Consistent, View, FreeMap, FileBytes;
      ghost var d := disk.image;
      FreshFilesValid();
      ghost var withMap := FlushRemoval(directory, freeMap);
      Formatted(d, withMap, disk.image, directory.table[..], freeMap.Contents());
    }

    /** Mark the two well-known sectors, allocate the two system files and store their headers. */
    static method LayOut(disk: SynchDisk, freeMap: BitMap, now: Stamp)
      requires freeMap.Valid() && freeMap.numBits == NUM_SECTORS
      requires forall s :: 0 <= s < NUM_SECTORS ==> !freeMap.Contents()[s]
      modifies disk, freeMap.words
      ensures LaidOut(disk.image) && forall s :: 0 <= s < NUM_SECTORS ==> (freeMap.Contents()[s] <==> s < 5)
    {
      hide Unpack, EncodeHeader, DecodeHeader;
      freeMap.Mark(FREE_MAP_SECTOR);
      freeMap.Mark(DIRECTORY_SECTOR);
      var mapHdr := AllocateNext(freeMap, 2, FREE_MAP_FILE_SIZE, now);
      var dirHdr := AllocateNext(freeMap, 3, DIRECTORY_FILE_SIZE, now);
      mapHdr.WriteBack(disk, FREE_MAP_SECTOR);
      dirHdr.WriteBack(disk, DIRECTORY_SECTOR);
    }

    /** A header for `size` bytes, when exactly the first `n` sectors are taken */
    static method AllocateNext(freeMap: BitMap, ghost n: nat, size: int32, now: Stamp) returns (hdr: FileHeader)
      requires freeMap.Valid() && freeMap.numBits == NUM_SECTORS
      requires 0 <= size <= DIRECT_BYTES && n + DivRoundUp(size, SECTOR_SIZE) <= NUM_SECTORS
      requires forall s :: 0 <= s < NUM_SECTORS ==> (freeMap.Contents()[s] <==> s < n)
      modifies freeMap.words
      ensures fresh(hdr) && fresh(hdr.dataSectors) && hdr.Valid() && Good(hdr.Value()) && hdr.numBytes == size
      ensures forall k :: 0 <= k < hdr.numSectors ==> DataBlocks(hdr.Value())[k] == n + k
      ensures forall s :: 0 <= s < NUM_SECTORS ==> (freeMap.Contents()[s] <==> s < n + hdr.numSectors)
    {
      hide Unpack, TakesLowest;
      CountLow(freeMap.Contents(), n);
      hdr := new FileHeader();
      var ok := hdr.Allocate(freeMap, size, now);
      assert ok;
      LowestRun(old(freeMap.Contents()), n, DataBlocks(hdr.Value()), freeMap.Contents());
    }

    /** Bring the directory into memory. */
    method FetchDirectory() returns (directory: Directory)
      requires Valid()
      ensures fresh(directory) && fresh(directory.table) && directory.table[..] == Table(disk.image)
    {
      SystemFilesValid();
      hide DecodeTable, FileBytes, DecodeHeader;
      directory := new Directory(NUM_DIR_ENTRIES);
      directory.FetchFrom(directoryFile);
    }

    /** Bring the free map into memory. */
    method FetchFreeMap() returns (freeMap: BitMap)
      requires Valid()
      ensures fresh(freeMap) && fresh(freeMap.words) && freeMap.Valid() && freeMap.numBits == NUM_SECTORS
      ensures freeMap.Contents() == FreeMap(disk.image)
    {
      hide DecodeWords, FileBytes, DecodeHeader, Consistent;
      SystemFilesValid();
      freeMap := new BitMap(NUM_SECTORS);
      FetchBitMap(freeMap, freeMapFile);
    }

    static lemma FoundIff(d: Image, key: CString, sector: int, index: int)
      requires Consistent(d) && IsIndexOf(Table(d), key, index)
      requires sector == if index == -1 then -1 else Table(d)[index].sector
      ensures sector == -1 <==> IsIndexOf(Table(d), key, -1)
    {
      hide FreeMap, Table, FilesOf, NameOf;
      assert index != -1 ==> Table(d)[index].inUse;
    }

    /** Create a file of fixed size; `now` is the current date. */
    method Create(name: CString, initialSize: int32, now: Stamp) returns (success: bool)
      requires Valid() && DirectSize(initialSize)
      modifies disk
      ensures Valid() && CreateStep(old(disk.image), Key(name), initialSize, success, disk.image)
    {
      hide FreeMap, Table, SystemFiles, Consistent, Takes, Enters, IsFirstUnused, CountClear, Unpack, Creates, IsIndexOf;
      SystemFilesValid();
      var directory := FetchDirectory();
      var existing, where := directory.Find(name);
      FoundIff(disk.image, Key(name), existing, where);
      if existing != -1 {
        return false;
      }
      success := CreateNew(name, initialSize, now, directory);
    }

    /** The rest of Create, for a name that `directory` does not hold yet. */
    method CreateNew(name: CString, initialSize: int32, now: Stamp, directory: Directory) returns (success: bool)
      requires Valid() && DirectSize(initialSize)
      requires directory.table[..] == Table(disk.image) && IsIndexOf(Table(disk.image), Key(name), -1)
      modifies disk, directory.table
      ensures Valid() && CreateStep(old(disk.image), Key(name), initialSize, success, disk.image)
    {
      hide FreeMap, Table, SystemFiles, Consistent, Takes, Enters, IsFirstUnused, CountClear, Unpack, Creates, IsIndexOf;
      var freeMap := FetchFreeMap();
      var hdr := new FileHeader();
      var sector: int;
      ghost var index: int;
      success, sector, index := Reserve(name, initialSize, now, directory, freeMap, hdr);
      if success {
        Store(name, initialSize, directory, freeMap, hdr, sector, index);
      }
    }

    /** Put what was reserved in memory on disk. */
    method Store(name: CString, initialSize: int32, directory: Directory, freeMap: BitMap, hdr: FileHeader, sector: int, ghost index: int)
      requires Valid() && freeMap.Valid() && freeMap.numBits == NUM_SECTORS && hdr.Valid() && hdr.numBytes == initialSize
      requires Takes(FreeMap(disk.image), sector, hdr.Value(), freeMap.Contents())
      requires 0 <= sector < NUM_SECTORS && 0 <= index < NUM_DIR_ENTRIES == directory.table.Length
      requires Enters(Table(disk.image), Key(name), index, directory.table[index], sector)
      requires directory.table[..] == Table(disk.image)[index := directory.table[index]]
      modifies disk
      ensures Valid() && exists c :: Creates(old(disk.image), Key(name), initialSize, c, disk.image)
    {
      hide FreeMap, Table, Consistent, Takes, Enters, Unpack, WroteHeader, WroteTable, WroteMap, Creates, DecodeHeader;
      ghost var d := disk.image;
      SystemFilesValid();
      ghost var withHeader, withEntry := Flush(hdr, sector, directory, freeMap);
      ghost var c := Creation(sector, hdr.Value(), withHeader, index, directory.table[index], withEntry, freeMap.Contents());
      CreateStored(d, Key(name), initialSize, c, disk.image);
    }

    /** Take a header sector, a directory entry and data blocks, in memory only. */
    static method Reserve(name: CString, initialSize: int32, now: Stamp, directory: Directory, freeMap: BitMap, hdr: FileHeader)
      returns (success: bool, sector: int, ghost index: int)
      requires DirectSize(initialSize) && IsIndexOf(directory.table[..], Key(name), -1)
      requires freeMap.Valid() && freeMap.numBits == NUM_SECTORS && hdr.Valid()
      modifies directory.table, freeMap.words, hdr, hdr.dataSectors
      ensures success <==>
        && !IsFirstUnused(old(directory.table[..]), -1)
        && DivRoundUp(initialSize, SECTOR_SIZE) + 1 <= CountClear(old(freeMap.Contents()))
      ensures success ==>
        && 0 <= index < directory.table.Length && 0 <= sector < NUM_SECTORS
        && Takes(old(freeMap.Contents()), sector, hdr.Value(), freeMap.Contents())
        && Enters(old(directory.table[..]), Key(name), index, directory.table[index], sector)
        && directory.table[..] == old(directory.table[..])[index := directory.table[index]]
        && hdr.numBytes == initialSize
    {
      hide Unpack, TakesLowest;
      CountClearZero(freeMap.Contents());
      sector := freeMap.Find();
      if sector == -1 {
        return false, sector, -1;
      }
      CountClearUpdate(old(freeMap.Contents()), sector, true);
      success, index := directory.Add(name, sector);
      if success {
        success := hdr.Allocate(freeMap, initialSize, now);
      }
    }

    /** A handle on the named file, or null when there is none */
    method Open(name: CString) returns (file: OpenFile?)
      requires Valid()
      ensures file == null <==> IsIndexOf(Table(disk.image), Key(name), -1)
      ensures file != null ==>
        && fresh(file) && fresh(file.hdr) && fresh(file.hdr.dataSectors) && file.disk == disk && file.seekPosition == 0
        && file.Valid() && exists a :: IsHandle(disk.image, Key(name), a, file.hdrSector, file.hdr.Value())
    {
      hide FreeMap, Table, SystemFiles, Consistent, Good, DecodeHeader;
      SystemFilesValid();
      var directory := FetchDirectory();
      var sector, index := directory.Find(name);
      if sector < 0 {
        return null;
      }
      FileReady(disk.image, Key(name), index);
      file := new OpenFile(disk, sector);
      assert IsHandle(disk.image, Key(name), index + 2, file.hdrSector, file.hdr.Value());
    }

    method Remove(name: CString) returns (success: bool)
      requires Valid()
      modifies disk
      ensures Valid() && RemoveStep(old(disk.image), Key(name), success, disk.image)
    {
      hide FreeMap, Table, SystemFiles, Consistent, Unpack, Removes;
      SystemFilesValid();
      var directory := FetchDirectory();
      var sector, index := directory.Find(name);
      if sector == -1 {
        return false;
      }
      RemoveFound(name, directory, sector, index);
      success := true;
    }

    /** The rest of Remove, once the directory entry is found. */
    method RemoveFound(name: CString, directory: Directory, sector: int, ghost index: int)
      requires Valid() && directory.table[..] == Table(disk.image) && index != -1
      requires IsIndexOf(Table(disk.image), Key(name), index) && sector == Table(disk.image)[index].sector
      modifies disk, directory.table
      ensures Valid() && exists r :: Removes(old(disk.image), Key(name), r, disk.image)
    {
      hide FreeMap, Table, SystemFiles, Consistent, Unpack, Removes, Releases;
      SystemFilesValid();
      var freeMap := ReleaseFile(Key(name), sector, index);
      var ok, where := directory.Remove(name);
      IndexUnique(Table(disk.image), Key(name), index, where);
      StoreRemoval(Key(name), directory, freeMap, index);
    }

    /** Put the outcome of a removal on disk. */
    method StoreRemoval(ghost key: CString, directory: Directory, freeMap: BitMap, ghost index: int)
      requires Valid() && freeMap.Valid() && freeMap.numBits == NUM_SECTORS
      requires 0 <= index < NUM_DIR_ENTRIES == directory.table.Length && index + 2 in Files(disk.image)
      requires IsIndexOf(Table(disk.image), key, index) && !directory.table[index].inUse
      requires directory.table[..] == Table(disk.image)[index := directory.table[index]]
      requires Releases(FreeMap(disk.image), Files(disk.image)[index + 2], freeMap.Contents())
      modifies disk
      ensures Valid() && exists r :: Removes(old(disk.image), key, r, disk.image)
    {
      ghost var d := disk.image;
      SystemFilesValid();
      hide FreeMap, Table, Consistent, Unpack, Removes, DecodeHeader, FilesOf, Releases, WroteMap, WroteTable, Good, IsIndexOf;
      ghost var withMap := FlushRemoval(directory, freeMap);
      RemoveStored(d, key, Removal(index, directory.table[index], freeMap.Contents(), withMap), disk.image);
    }

    /** The free map without the sectors of the file whose header is in `sector` */
    method ReleaseFile(ghost key: CString, sector: int, ghost index: int) returns (freeMap: BitMap)
      requires Valid() && 0 <= index < NUM_DIR_ENTRIES && Holds(Table(disk.image)[index], key)
      requires sector == Table(disk.image)[index].sector
      ensures fresh(freeMap) && fresh(freeMap.words) && freeMap.Valid() && freeMap.numBits == NUM_SECTORS
      ensures index + 2 in Files(disk.image)
      ensures Releases(FreeMap(disk.image), Files(disk.image)[index + 2], freeMap.Contents())
    {
      hide FreeMap, Table, Consistent, Unpack, DecodeHeader, FilesOf, Releases, Good, Holds;
      FileReady(disk.image, key, index);
      var fileHdr := new FileHeader();
      fileHdr.FetchFrom(disk, sector);
      freeMap := FetchFreeMap();
      Release(fileHdr, sector, freeMap);
    }

    /** Clear the sectors of one file in the free map, in memory only. */
    static method Release(fileHdr: FileHeader, sector: int, freeMap: BitMap)
      requires fileHdr.Valid() && Good(fileHdr.Value()) && NoDup(DataBlocks(fileHdr.Value()))
      requires freeMap.Valid() && freeMap.numBits == NUM_SECTORS && 0 <= sector < NUM_SECTORS
      requires forall s :: s in Sectors(File(sector, fileHdr.Value())) ==> 0 <= s < NUM_SECTORS && freeMap.Contents()[s]
      modifies freeMap.words
      ensures Releases(old(freeMap.Contents()), File(sector, fileHdr.Value()), freeMap.Contents())
    {
      hide Unpack;
      assert forall b :: b in DataBlocks(fileHdr.Value()) ==> b in Sectors(File(sector, fileHdr.Value()));
      fileHdr.Deallocate(freeMap);
      freeMap.Clear(sector);
    }

    /** Store the free map and the directory, in that order. */
    method FlushRemoval(directory: Directory, freeMap: BitMap) returns (ghost withMap: Image)
      requires freeMap.Valid() && freeMap.numBits == NUM_SECTORS && directory.table.Length == NUM_DIR_ENTRIES
      requires freeMapFile.Valid() && directoryFile.Valid() && freeMapFile.disk == directoryFile.disk == disk
      requires freeMapFile.hdr.numBytes == FREE_MAP_FILE_SIZE && directoryFile.hdr.numBytes == DIRECTORY_FILE_SIZE
      modifies disk
      ensures WroteMap(old(disk.image), withMap, freeMapFile.hdr.Value(), freeMap.Contents())
      ensures WroteTable(withMap, disk.image, directoryFile.hdr.Value(), directory.table[..])
    {
      hide FileBytes, EncodeTable, EncodeWords, DecodeTable, DecodeWords, Unpack;
      WriteBackBitMap(freeMap, freeMapFile);
      withMap := disk.image;
      MapStored(old(disk.image), withMap, freeMapFile.hdr.Value(), freeMap.words[..]);
      directory.WriteBack(directoryFile);
      TableStored(withMap, disk.image, directoryFile.hdr.Value(), directory.table[..]);
    }

    /** Store a new header, the directory and the free map, in that order. */
    method Flush(hdr: FileHeader, sector: int, directory: Directory, freeMap: BitMap)
      returns (ghost withHeader: Image, ghost withEntry: Image)
      requires hdr.Valid() && 0 <= sector < NUM_SECTORS && freeMap.Valid() && freeMap.numBits == NUM_SECTORS
      requires freeMapFile.Valid() && directoryFile.Valid() && freeMapFile.disk == directoryFile.disk == disk
      requires freeMapFile.hdr.numBytes == FREE_MAP_FILE_SIZE && directoryFile.hdr.numBytes == DIRECTORY_FILE_SIZE
      requires directory.table.Length == NUM_DIR_ENTRIES
      modifies disk
      ensures WroteHeader(old(disk.image), withHeader, sector, hdr.Value())
      ensures WroteTable(withHeader, withEntry, directoryFile.hdr.Value(), directory.table[..])
      ensures WroteMap(withEntry, disk.image, freeMapFile.hdr.Value(), freeMap.Contents())
    {
      hide FileBytes, EncodeHeader, DecodeHeader, EncodeTable, EncodeWords, DecodeTable, DecodeWords, Unpack;
      hdr.WriteBack(disk, sector);
      withHeader := disk.image;
      directory.WriteBack(directoryFile);
      withEntry := disk.image;
      TableStored(withHeader, withEntry, directoryFile.hdr.Value(), directory.table[..]);
      WriteBackBitMap(freeMap, freeMapFile);
      MapStored(withEntry, disk.image, freeMapFile.hdr.Value(), freeMap.words[..]);
    }
  }

  lemma TableStored(d: Image, d': Image, h: Inode, entries: seq<Entry>)
    requires Good(h) && h.numBytes == DIRECTORY_FILE_SIZE && |entries| == NUM_DIR_ENTRIES
    requires Wrote(d, d', h, 0, EncodeTable(entries))
    ensures WroteTable(d, d', h, entries)
  {
    WroteWhole(d, d', h, EncodeTable(entries));
    TableRoundTrip(entries);
  }

  lemma MapStored(d: Image, d': Image, h: Inode, words: seq<word>)
    requires Good(h) && h.numBytes == FREE_MAP_FILE_SIZE && |words| == WordsFor(NUM_SECTORS)
    requires Wrote(d, d', h, 0, EncodeWords(words))
    ensures WroteMap(d, d', h, Unpack(words, NUM_SECTORS))
  {
    WroteWhole(d, d', h, EncodeWords(words));
    WordsRoundTrip(words);
  }

  lemma CreateStored(d: Image, key: CString, size: int32, c: Creation, d': Image)
    requires Consistent(d) && c.inode.numBytes == size
    requires Takes(FreeMap(d), c.sector, c.inode, c.bits) && Enters(Table(d), key, c.index, c.entry, c.sector)
    requires WroteHeader(d, c.withHeader, c.sector, c.inode)
    requires WroteTable(c.withHeader, c.withEntry, HeaderAt(d, DIRECTORY_SECTOR), Table(d)[c.index := c.entry])
    requires WroteMap(c.withEntry, d', HeaderAt(d, FREE_MAP_SECTOR), c.bits)
    ensures Creates(d, key, size, c, d') && Consistent(d')
    ensures HeaderAt(d', FREE_MAP_SECTOR) == HeaderAt(d, FREE_MAP_SECTOR)
    ensures HeaderAt(d', DIRECTORY_SECTOR) == HeaderAt(d, DIRECTORY_SECTOR)
  {
    hide FreeMap, Table, FilesOf, Takes, Enters, WroteHeader, WroteTable, WroteMap, DecodeHeader;
    CreateKeeps(d, key, size, c, d');
    SystemHeaders(d);
    SystemHeaders(d');
  }

  lemma RemoveStored(d: Image, key: CString, r: Removal, d': Image)
    requires Consistent(d) && r.index != -1 && IsIndexOf(Table(d), key, r.index) && !r.entry.inUse
    requires Releases(FreeMap(d), Files(d)[r.index + 2], r.bits)
    requires WroteMap(d, r.withMap, HeaderAt(d, FREE_MAP_SECTOR), r.bits)
    requires WroteTable(r.withMap, d', HeaderAt(d, DIRECTORY_SECTOR), Table(d)[r.index := r.entry])
    ensures Removes(d, key, r, d') && Consistent(d')
    ensures HeaderAt(d', FREE_MAP_SECTOR) == HeaderAt(d, FREE_MAP_SECTOR)
    ensures HeaderAt(d', DIRECTORY_SECTOR) == HeaderAt(d, DIRECTORY_SECTOR)
  {
    hide FreeMap, Table, FilesOf, WroteTable, WroteMap, DecodeHeader, Releases;
    RemoveKeeps(d, key, r, d');
    SystemHeaders(d);
    SystemHeaders(d');
  }

  /** `h` is the header of the file named `key`, in slot `a`, up to its access date. */
  ghost predicate IsHandle(d: Image, key: CString, a: nat, sector: int, h: Inode)
    requires Consistent(d)
  {
    && a in Files(d) && a >= 2 && Holds(Table(d)[a - 2], key)
    && sector == Files(d)[a].sector && h == Files(d)[a].inode.(accessed := h.accessed)
  }

  /** A write through a handle is a write to the named file. */
  lemma HandleWrites(d: Image, key: CString, a: nat, sector: int, h: Inode, position: nat, data: seq<byte>, d': Image)
    requires Consistent(d) && IsHandle(d, key, a, sector, h) && Good(h)
    requires var n := Clip(Length(h), |data|, position);
      if n == 0 then d' == d else Wrote(d, d', h, position, data[..n])
    ensures WriteStep(d, key, position, data, true, d')
    ensures Consistent(d') && IsHandle(d', key, a, sector, h)
  {
    hide FreeMap, Table, FilesOf, DecodeHeader, Sound;
    RestampedBytes(d, Files(d)[a].inode, h.accessed);
    RestampedBytes(d', Files(d)[a].inode, h.accessed);
    assert WritesSlot(d, key, a, position, data, d');
    var n := Clip(Length(h), |data|, position);
    if n > 0 {
      WriteKeeps(d, a, position, data[..n], d');
    }
  }

  /** The header rewrite in Read and Write is a change of date of the named file: `h` is the
      handle's header after it. */
  lemma HandleTouches(d: Image, key: CString, a: nat, sector: int, h: Inode, now: Stamp, d': Image)
    requires Consistent(d) && IsHandle(d, key, a, sector, h) && h.accessed == now && 0 <= sector < NUM_SECTORS
    requires |h.sectors| == NUM_DIRECT + NUM_FIRST && d' == d[sector := EncodeHeader(h)]
    ensures TouchStep(d, key, now, true, d')
    ensures Consistent(d') && IsHandle(d', key, a, sector, h)
  {
    hide FreeMap, Table, FilesOf, DecodeHeader, EncodeHeader, Sound;
    HeaderRoundTrip(h);
    assert Touches(d, Files(d)[a], now, d');
    assert TouchesSlot(d, key, a, now, d');
    TouchKeeps(d, a, now, d');
  }

  /** OpenFile.Write through a handle is a write step and then a change of date: `mid` is the image
      between them and `h'` the handle's header after it. */
  lemma HandleWritesThenTouches(d: Image, key: CString, a: nat, sector: int, h: Inode, h': Inode, position: nat, data: seq<byte>,
                                now: Stamp, mid: Image, d': Image)
    requires Consistent(d) && IsHandle(d, key, a, sector, h) && Good(h) && 0 <= sector < NUM_SECTORS
    requires var n := Clip(Length(h), |data|, position);
      if n == 0 then mid == d else Wrote(d, mid, h, position, data[..n])
    requires h' == h.(accessed := now) && |h.sectors| == NUM_DIRECT + NUM_FIRST && d' == mid[sector := EncodeHeader(h')]
    ensures WriteStep(d, key, position, data, true, mid) && Consistent(mid) && TouchStep(mid, key, now, true, d')
    ensures Consistent(d') && IsHandle(d', key, a, sector, h')
  {
    HandleWrites(d, key, a, sector, h, position, data, mid);
    assert IsHandle(mid, key, a, sector, h');
    HandleTouches(mid, key, a, sector, h', now, d');
  }

  lemma HandleOverCreate(d: Image, name: CString, size: int32, c: Creation, d': Image, key: CString, a: nat, sector: int, h: Inode)
    requires Consistent(d) && IsHandle(d, key, a, sector, h) && Creates(d, Key(name), size, c, d')
    ensures Consistent(d') && IsHandle(d', key, a, sector, h)
  {
    hide FreeMap, Table, FilesOf, Sound, Takes, WroteHeader, WroteTable, WroteMap, DecodeHeader;
    CreateKeeps(d, Key(name), size, c, d');
  }

  lemma HandleOverRemove(d: Image, name: CString, r: Removal, d': Image, key: CString, a: nat, sector: int, h: Inode)
    requires Consistent(d) && IsHandle(d, key, a, sector, h) && Removes(d, Key(name), r, d') && Key(name) != key
    ensures Consistent(d') && IsHandle(d', key, a, sector, h)
  {
    hide FreeMap, Table, FilesOf, Sound, Releases, WroteTable, WroteMap, DecodeHeader;
    RemoveKeeps(d, Key(name), r, d');
  }

  lemma HandleOverWrite(d: Image, name: CString, b: nat, position: nat, data: seq<byte>, d': Image,
                        key: CString, a: nat, sector: int, h: Inode)
    requires Consistent(d) && IsHandle(d, key, a, sector, h) && WritesSlot(d, Key(name), b, position, data, d')
    ensures Consistent(d') && IsHandle(d', key, a, sector, h)
  {
    hide FreeMap, Table, FilesOf, Sound, Wrote, DecodeHeader;
    var inode := Files(d)[b].inode;
    var n := Clip(Length(inode), |data|, position);
    if n > 0 {
      WriteKeeps(d, b, position, data[..n], d');
    }
  }

  lemma HandleOverTouch(d: Image, name: CString, b: nat, now: Stamp, d': Image, key: CString, a: nat, sector: int, h: Inode)
    requires Consistent(d) && IsHandle(d, key, a, sector, h) && TouchesSlot(d, Key(name), b, now, d')
    ensures Consistent(d') && IsHandle(d', key, a, sector, h)
  {
    hide FreeMap, Table, FilesOf, Sound, Touches, DecodeHeader;
    TouchKeeps(d, b, now, d');
  }

  /** A handle survives every operation but the removal of its own file, whoever else creates,
      removes, writes or reads, through whatever handles. */
  lemma HandleKept(d: Image, op: Op, ok: bool, d': Image, key: CString, a: nat, sector: int, h: Inode)
    requires Consistent(d) && IsHandle(d, key, a, sector, h) && Step(d, op, ok, d')
    requires !(op.RemoveOp? && Key(op.name) == key)
    ensures Consistent(d') && IsHandle(d', key, a, sector, h)
  {
    assert SystemFiles(d) && InRange(Table(d));
    hide Consistent, IsHandle, Creates, Removes, WritesSlot, TouchesSlot, Table, CanCreate;
    if ok {
      match op
      case CreateOp(name, size) =>
        var c :| Creates(d, Key(name), size, c, d');
        HandleOverCreate(d, name, size, c, d', key, a, sector, h);
      case RemoveOp(name) =>
        var r :| Removes(d, Key(name), r, d');
        HandleOverRemove(d, name, r, d', key, a, sector, h);
      case WriteOp(name, position, data) =>
        var b :| WritesSlot(d, Key(name), b, position, data, d');
        HandleOverWrite(d, name, b, position, data, d', key, a, sector, h);
      case TouchOp(name, now) =>
        var b :| TouchesSlot(d, Key(name), b, now, d');
        HandleOverTouch(d, name, b, now, d', key, a, sector, h);
    }
  }

  /** So in every run a handle stays one until its file is removed. */
  lemma {:induction false} HandleRuns(ds: seq<Image>, ops: seq<Op>, oks: seq<bool>, n: nat, key: CString, a: nat, sector: int, h: Inode)
    requires Run(ds, ops, oks) && n <= |ops| && IsHandle(ds[0], key, a, sector, h)
    requires forall i :: 0 <= i < n ==> !(ops[i].RemoveOp? && Key(ops[i].name) == key)
    ensures Consistent(ds[n]) && IsHandle(ds[n], key, a, sector, h)
  {
    hide Consistent, IsHandle, FileSystemRuns.Step;
    if n > 0 {
      HandleRuns(ds, ops, oks, n - 1, key, a, sector, h);
      HandleKept(ds[n - 1], ops[n - 1], oks[n - 1], ds[n], key, a, sector, h);
    }
  }

  /** What Consistent says about one named file */
  lemma FileReady(d: Image, key: CString, index: int)
    requires Consistent(d) && 0 <= index < NUM_DIR_ENTRIES && Holds(Table(d)[index], key)
    ensures index + 2 in Files(d) && !IsIndexOf(Table(d), key, -1)
    ensures var f := Files(d)[index + 2];
      && f.sector == Table(d)[index].sector && 0 <= f.sector < NUM_SECTORS
      && f.inode == HeaderAt(d, f.sector) && Good(f.inode) && NoDup(DataBlocks(f.inode))
      && f.sector !in DataBlocks(f.inode)
      && forall s :: s in Sectors(f) ==> 0 <= s < NUM_SECTORS && FreeMap(d)[s]
  {
    hide FreeMap, Table, DecodeHeader;
    assert SlotUsed(Table(d), index + 2);
    var f := Files(d)[index + 2];
    DataDistinct(f);
    HeaderNotData(f);
    forall s | s in Sectors(f) ensures 0 <= s < NUM_SECTORS && FreeMap(d)[s] {
      assert Occupied(Files(d), s);
    }
  }

  lemma IndexUnique(entries: seq<Entry>, key: CString, i: int, j: int)
    requires IsIndexOf(entries, key, i) && IsIndexOf(entries, key, j)
    ensures i == j
  {
  }

  /** The headers of a new file system: free map data in sector 2, directory data in 3 and 4 */
  predicate LaidOut(d: Image) {
    var free, dir := HeaderAt(d, FREE_MAP_SECTOR), HeaderAt(d, DIRECTORY_SECTOR);
    && Good(free) && free.numBytes == FREE_MAP_FILE_SIZE && DataBlocks(free) == [2]
    && Good(dir) && dir.numBytes == DIRECTORY_FILE_SIZE && DataBlocks(dir) == [3, 4]
  }

  lemma FreshDisjoint(files: map<nat, File>)
    requires files.Keys == {0, 1} && HasSystemFiles(files)
    requires Good(files[0].inode) && DataBlocks(files[0].inode) == [2]
    requires Good(files[1].inode) && DataBlocks(files[1].inode) == [3, 4]
    ensures Sectors(files[0]) == [0, 2] && Sectors(files[1]) == [1, 3, 4] && Disjoint(files)
  {
    hide DataBlocks, Good;
    assert Sectors(files[0]) == [0, 2] && Sectors(files[1]) == [1, 3, 4];
    hide Sectors;
  }

  lemma FreshOccupied(files: map<nat, File>, s: int)
    requires files.Keys == {0, 1} && Disjoint(files) && Sectors(files[0]) == [0, 2] && Sectors(files[1]) == [1, 3, 4]
    ensures Occupied(files, s) <==> 0 <= s < 5
  {
    hide Sectors, Good, NoDup;
    if Occupied(files, s) {
      var x :| x in files && s in Sectors(files[x]);
      assert x in files.Keys;
    }
    if s == 0 || s == 2 {
      assert 0 in files && s in Sectors(files[0]);
    } else if s == 1 || s == 3 || s == 4 {
      assert 1 in files && s in Sectors(files[1]);
    }
  }

  lemma FreshSound(files: map<nat, File>, entries: seq<Entry>, bits: seq<bool>)
    requires files.Keys == {0, 1} && HasSystemFiles(files)
    requires Good(files[0].inode) && DataBlocks(files[0].inode) == [2]
    requires Good(files[1].inode) && DataBlocks(files[1].inode) == [3, 4]
    requires |entries| == NUM_DIR_ENTRIES && forall i :: 0 <= i < |entries| ==> !entries[i].inUse
    requires |bits| == NUM_SECTORS && forall s :: 0 <= s < NUM_SECTORS ==> (bits[s] <==> s < 5)
    ensures Sound(bits, entries, files)
  {
    hide Disjoint, Occupied, Sectors, DataBlocks, Good, NameOf;
    FreshDisjoint(files);
    forall s | 0 <= s < NUM_SECTORS
      ensures bits[s] <==> Occupied(files, s)
    {
      FreshOccupied(files, s);
    }
  }

  lemma Formatted(d: Image, mid: Image, d': Image, entries: seq<Entry>, bits: seq<bool>)
    requires LaidOut(d)
    requires |entries| == NUM_DIR_ENTRIES && forall i :: 0 <= i < |entries| ==> !entries[i].inUse
    requires |bits| == NUM_SECTORS && forall s :: 0 <= s < NUM_SECTORS ==> (bits[s] <==> s < 5)
    requires WroteMap(d, mid, HeaderAt(d, FREE_MAP_SECTOR), bits)
    requires WroteTable(mid, d', HeaderAt(d, DIRECTORY_SECTOR), entries)
    ensures Consistent(d') && FreeMap(d') == bits && View(d') == map[]
    ensures HeaderAt(d', FREE_MAP_SECTOR) == HeaderAt(d, FREE_MAP_SECTOR)
    ensures HeaderAt(d', DIRECTORY_SECTOR) == HeaderAt(d, DIRECTORY_SECTOR)
  {
    hide FileBytes, DecodeHeader, DecodeTable, DecodeWords, Unpack, FilesOf, WroteMap, WroteTable;
    var free, dir := HeaderAt(d, FREE_MAP_SECTOR), HeaderAt(d, DIRECTORY_SECTOR);
    var files := map[0 := File(FREE_MAP_SECTOR, free), 1 := File(DIRECTORY_SECTOR, dir)];
    FreshSound(files, entries, bits);
    MapThenTable(files, d, mid, d', entries, bits);
    ConsistentFrom(d', bits, entries, files);
    assert Names(entries) == {};
  }

  /** Taking from a map whose first `n` bits are the marked ones takes the next bits in order. */
  lemma LowestRun(before: seq<bool>, n: nat, blocks: seq<int>, after: seq<bool>)
    requires TakesLowest(before, blocks, after) && n + |blocks| <= |before|
    requires forall i :: 0 <= i < |before| ==> (before[i] <==> i < n)
    ensures forall k :: 0 <= k < |blocks| ==> blocks[k] == n + k
    ensures forall i :: 0 <= i < |after| ==> (after[i] <==> i < n + |blocks|)
  {
    forall k | 0 <= k < |blocks| ensures blocks[k] == n + k {
      RunAt(before, n, blocks, after, k);
    }
    forall i | 0 <= i < |after| ensures after[i] <==> i < n + |blocks| {
      if n <= i < n + |blocks| {
        assert blocks[i - n] in blocks;
      }
    }
  }

  /** A clear sector below a taken one is taken before it. */
  lemma TakenBefore(before: seq<bool>, blocks: seq<int>, after: seq<bool>, k: nat, x: int)
    requires TakesLowest(before, blocks, after) && k < |blocks| && 0 <= x < blocks[k] && x < |before| && !before[x]
    ensures exists j :: 0 <= j < k && blocks[j] == x
  {
    assert blocks[k] in blocks;
    assert after[x];
    var j :| 0 <= j < |blocks| && blocks[j] == x;
  }

  lemma {:induction false} RunAt(before: seq<bool>, n: nat, blocks: seq<int>, after: seq<bool>, k: nat)
    requires TakesLowest(before, blocks, after) && k < |blocks|
    requires forall i :: 0 <= i < |before| ==> (before[i] <==> i < n)
    ensures blocks[k] == n + k
  {
    var b := blocks[k];
    assert b in blocks;
    if k > 0 {
      RunAt(before, n, blocks, after, k - 1);
    }
    if b > n + k {
      TakenBefore(before, blocks, after, k, n + k);
    }
  }

  lemma {:induction false} CountLow(bits: seq<bool>, n: nat)
    requires n <= |bits| && forall i :: 0 <= i < |bits| ==> (bits[i] <==> i < n)
    ensures CountClear(bits) == |bits| - n
  {
    if n == |bits| {
      CountClearZero(bits);
    } else {
      CountLow(bits[..|bits| - 1], n);
    }
  }

  lemma SystemHeaders(d: Image)
    requires Consistent(d)
    ensures 0 in Files(d) && Files(d)[0].inode == HeaderAt(d, FREE_MAP_SECTOR)
    ensures 1 in Files(d) && Files(d)[1].inode == HeaderAt(d, DIRECTORY_SECTOR)
  {
  }

  lemma DataDistinct(f: File)
    requires Good(f.inode) && NoDup(Sectors(f))
    ensures NoDup(DataBlocks(f.inode))
  {
    forall i, j | 0 <= i < j < |DataBlocks(f.inode)| ensures DataBlocks(f.inode)[i] != DataBlocks(f.inode)[j] {
      assert Sectors(f)[i + 1] == DataBlocks(f.inode)[i] && Sectors(f)[j + 1] == DataBlocks(f.inode)[j];
    }
  }
}
