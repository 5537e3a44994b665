/** How each file-system operation changes the disk image, and why the image stays sound. */
module FileSystemSteps {
  import opened Bytes
  import opened BitMaps
  import opened DiskImages
  import opened FileHeaders
  import opened OpenFiles
  import opened Directories
  import opened FileSystemSpec

  /** Only data blocks of `h` may differ. */
  ghost predicate OnlyData(d: Image, d': Image, h: Inode) {
    Good(h) && forall s :: 0 <= s < NUM_SECTORS && s !in DataBlocks(h) ==> d'[s] == d[s]
  }

  /** The directory file `h` was rewritten to hold `entries`. */
  ghost predicate WroteTable(d: Image, d': Image, h: Inode, entries: seq<Entry>) {
    OnlyData(d, d', h) && h.numBytes == DIRECTORY_FILE_SIZE && DecodeTable(FileBytes(d', h)) == entries
  }

  /** The free map file `h` was rewritten to hold `bits`. */
  ghost predicate WroteMap(d: Image, d': Image, h: Inode, bits: seq<bool>) {
    && OnlyData(d, d', h) && h.numBytes == FREE_MAP_FILE_SIZE
    && Unpack(DecodeWords(FileBytes(d', h)), NUM_SECTORS) == bits
  }

  /** Header `inode` was written to `sector`. */
  ghost predicate WroteHeader(d: Image, d': Image, sector: int, inode: Inode) {
    && 0 <= sector < NUM_SECTORS && HeaderAt(d', sector) == inode
    && forall s :: 0 <= s < NUM_SECTORS && s != sector ==> d'[s] == d[s]
  }

  /** How one creation changed the disk: header `inode` went to `sector` (giving the image
      `withHeader`), the directory got `entry` at `index` (giving `withEntry`), and the
      free map became `bits`. */
  datatype Creation = Creation(
    sector: int, inode: Inode, withHeader: Image,
    index: int, entry: Entry, withEntry: Image, bits: seq<bool>)

  ghost predicate Creates(d: Image, key: CString, size: int32, c: Creation, d': Image)
    requires SystemFiles(d)
  {
    && c.inode.numBytes == size
    && Takes(FreeMap(d), c.sector, c.inode, c.bits)
    && Enters(Table(d), key, c.index, c.entry, c.sector)
    && WroteHeader(d, c.withHeader, c.sector, c.inode)
    && WroteTable(c.withHeader, c.withEntry, HeaderAt(d, DIRECTORY_SECTOR), Table(d)[c.index := c.entry])
    && WroteMap(c.withEntry, d', HeaderAt(d, FREE_MAP_SECTOR), c.bits)
  }

  /** `bits'` is the free map `bits` after the lowest clear sector was taken for a header
      and the next lowest ones for the blocks of `inode`. */
  ghost predicate Takes(bits: seq<bool>, sector: int, inode: Inode, bits': seq<bool>) {
    && |bits| == NUM_SECTORS
    && sector != -1 && IsFirstClear(bits, sector)
    && Good(inode)
    && TakesLowest(bits[sector := true], DataBlocks(inode), bits')
  }

  /** `entry` holds the new name `key` in the lowest unused place `index`. */
  ghost predicate Enters(entries: seq<Entry>, key: CString, index: int, entry: Entry, sector: int) {
    && IsIndexOf(entries, key, -1)
    && index != -1 && IsFirstUnused(entries, index)
    && Holds(entry, key) && entry.sector == sector
  }

  /** Creation finds its name free, an entry free, and room for header and data. */
  ghost predicate CanCreate(d: Image, key: CString, size: int32)
    requires SystemFiles(d)
  {
    && IsIndexOf(Table(d), key, -1)
    && !IsFirstUnused(Table(d), -1)
    && DivRoundUp(size, SECTOR_SIZE) + 1 <= CountClear(FreeMap(d))
  }

  /** `d'` agrees with `d` on every occupied sector, except possibly the free map's and
      the directory's data blocks. */
  ghost predicate SameElsewhere(files: map<nat, File>, d: Image, d': Image)
    requires Disjoint(files) && 0 in files && 1 in files
  {
    forall a, s :: a in files && s in Sectors(files[a]) ==>
      s in DataBlocks(files[0].inode) || s in DataBlocks(files[1].inode) || d'[s] == d[s]
  }

  /** Headers, and all sectors of user files, are among what stays the same. */
  lemma Kept(files: map<nat, File>, d: Image, d': Image, a: nat, s: int)
    requires Disjoint(files) && 0 in files && 1 in files && SameElsewhere(files, d, d')
    requires a in files && s in Sectors(files[a]) && (a >= 2 || s == files[a].sector)
    ensures d'[s] == d[s]
  {
    forall b | b in {0, 1} ensures s !in DataBlocks(files[b].inode) {
      if a != b {
        assert s !in Sectors(files[b]);
      } else {
        assert Sectors(files[a])[0] == s;
        forall i | 0 <= i < |DataBlocks(files[a].inode)| ensures DataBlocks(files[a].inode)[i] != s {
          assert Sectors(files[a])[i + 1] == DataBlocks(files[a].inode)[i];
        }
      }
    }
  }

  lemma KeptFile(files: map<nat, File>, d: Image, d': Image, a: nat)
    requires Disjoint(files) && 0 in files && 1 in files && SameElsewhere(files, d, d')
    requires a in files && HeaderAt(d, files[a].sector) == files[a].inode
    ensures HeaderAt(d', files[a].sector) == files[a].inode
    ensures a >= 2 ==> FileBytes(d', files[a].inode) == FileBytes(d, files[a].inode)
  {
    assert files[a].sector == Sectors(files[a])[0];
    Kept(files, d, d', a, files[a].sector);
    if a >= 2 {
      forall s | s in Sectors(files[a]) ensures d'[s] == d[s] {
        Kept(files, d, d', a, s);
      }
      Untouched(d, d', files[a]);
    }
  }

  ghost predicate ReadsAs(d: Image, files: map<nat, File>)
    requires Disjoint(files)
  {
    forall a :: a in files ==> HeaderAt(d, files[a].sector) == files[a].inode
  }

  lemma KeptHeaders(files: map<nat, File>, d: Image, d': Image)
    requires Disjoint(files) && 0 in files && 1 in files && ReadsAs(d, files) && SameElsewhere(files, d, d')
    ensures ReadsAs(d', files)
  {
    forall a | a in files ensures HeaderAt(d', files[a].sector) == files[a].inode {
      KeptFile(files, d, d', a);
    }
  }

  lemma BytesKept(d: Image, d': Image, h: Inode)
    requires Good(h) && forall s :: s in DataBlocks(h) ==> d'[s] == d[s]
    ensures FileBytes(d', h) == FileBytes(d, h)
  {
  }

  /** No data block of one file is a data block of another. */
  lemma DataApart(files: map<nat, File>, a: nat, b: nat, s: int)
    requires Disjoint(files) && a in files && b in files && a != b
    requires s in DataBlocks(files[a].inode)
    ensures s !in DataBlocks(files[b].inode)
  {
    assert s in Sectors(files[a]);
    assert s !in Sectors(files[b]);
  }

  /** Rewriting both system files, directory first. */
  lemma TableThenMap(files: map<nat, File>, d: Image, mid: Image, d': Image, entries: seq<Entry>, bits: seq<bool>)
    requires Disjoint(files) && HasSystemFiles(files) && ReadsAs(d, files)
    requires WroteTable(d, mid, files[1].inode, entries) && WroteMap(mid, d', files[0].inode, bits)
    ensures SameElsewhere(files, d, d') && ReadsAs(d', files)
    ensures SystemFiles(d') && Table(d') == entries && FreeMap(d') == bits
  {
    hide FileBytes, DecodeTable, DecodeWords, Unpack, DecodeHeader;
    forall s | s in DataBlocks(files[1].inode) ensures d'[s] == mid[s] {
      DataApart(files, 1, 0, s);
    }
    BytesKept(mid, d', files[1].inode);
    KeptHeaders(files, d, d');
  }

  /** Rewriting both system files, free map first. */
  lemma MapThenTable(files: map<nat, File>, d: Image, mid: Image, d': Image, entries: seq<Entry>, bits: seq<bool>)
    requires Disjoint(files) && HasSystemFiles(files) && ReadsAs(d, files)
    requires WroteMap(d, mid, files[0].inode, bits) && WroteTable(mid, d', files[1].inode, entries)
    ensures SameElsewhere(files, d, d') && ReadsAs(d', files)
    ensures SystemFiles(d') && Table(d') == entries && FreeMap(d') == bits
  {
    hide FileBytes, DecodeTable, DecodeWords, Unpack, DecodeHeader;
    forall s | s in DataBlocks(files[0].inode) ensures d'[s] == mid[s] {
      DataApart(files, 0, 1, s);
    }
    BytesKept(mid, d', files[0].inode);
    KeptHeaders(files, d, d');
  }

  /** Adding a file whose sectors nobody occupies keeps the layout disjoint. */
  lemma AddFile(files: map<nat, File>, a: nat, f: File)
    requires Disjoint(files) && a !in files
    requires 0 <= f.sector < NUM_SECTORS && Good(f.inode) && NoDup(Sectors(f))
    requires forall s :: s in Sectors(f) ==> !Occupied(files, s)
    ensures Disjoint(files[a := f])
    ensures forall s :: Occupied(files[a := f], s) <==> Occupied(files, s) || s in Sectors(f)
  {
    var files' := files[a := f];
    forall x, y, s | x in files' && y in files' && x != y && s in Sectors(files'[x])
      ensures s !in Sectors(files'[y])
    {
      if x == a {
        assert !Occupied(files, s);
      } else if y == a {
        assert Occupied(files, s);
      }
    }
    forall s ensures Occupied(files', s) <==> Occupied(files, s) || s in Sectors(f) {
      if Occupied(files, s) {
        var x :| x in files && s in Sectors(files[x]);
        assert x in files' && s in Sectors(files'[x]);
      }
      if s in Sectors(f) {
        assert a in files' && s in Sectors(files'[a]);
      }
      if Occupied(files', s) {
        var x :| x in files' && s in Sectors(files'[x]);
        assert x != a ==> x in files && s in Sectors(files[x]);
      }
    }
  }

  /** Dropping a file frees exactly its sectors. */
  lemma DropFile(files: map<nat, File>, a: nat)
    requires Disjoint(files) && a in files
    ensures Disjoint(files - {a})
    ensures forall s :: Occupied(files - {a}, s) <==> Occupied(files, s) && s !in Sectors(files[a])
  {
    var files' := files - {a};
    forall s ensures Occupied(files', s) <==> Occupied(files, s) && s !in Sectors(files[a]) {
      if Occupied(files', s) {
        var x :| x in files' && s in Sectors(files'[x]);
        assert x in files && s in Sectors(files[x]);
      }
      if Occupied(files, s) && s !in Sectors(files[a]) {
        var x :| x in files && s in Sectors(files[x]);
        assert x in files' && s in Sectors(files'[x]);
      }
    }
  }

  /** The sectors a creation takes were free and are all different. */
  lemma TakesFree(bits: seq<bool>, sector: int, inode: Inode, bits': seq<bool>, s: int)
    requires Takes(bits, sector, inode, bits')
    ensures NoDup(Sectors(File(sector, inode))) && |bits'| == NUM_SECTORS
    ensures s in Sectors(File(sector, inode)) ==> 0 <= s < NUM_SECTORS && !bits[s]
    ensures 0 <= s < NUM_SECTORS ==> (bits'[s] <==> bits[s] || s in Sectors(File(sector, inode)))
  {
    var taken, blocks := bits[sector := true], DataBlocks(inode);
    assert taken[sector];
    assert sector !in blocks;
  }

  lemma EntersTable(entries: seq<Entry>, files: map<nat, File>, key: CString, index: int, entry: Entry, f: File)
    requires |entries| == NUM_DIR_ENTRIES && UniqueNames(entries) && Enters(entries, key, index, entry, f.sector)
    requires SlotsMatch(entries, files)
    ensures index + 2 !in files && UniqueNames(entries[index := entry])
    ensures SlotsMatch(entries[index := entry], files[index + 2 := f])
  {
  }

  lemma TakesSectors(bits: seq<bool>, files: map<nat, File>, a: nat, sector: int, inode: Inode, bits': seq<bool>)
    requires Disjoint(files) && a !in files && Takes(bits, sector, inode, bits')
    requires forall s :: 0 <= s < NUM_SECTORS ==> (bits[s] <==> Occupied(files, s))
    ensures forall s :: s in Sectors(File(sector, inode)) ==> !Occupied(files, s)
    ensures |bits'| == NUM_SECTORS && Disjoint(files[a := File(sector, inode)])
    ensures forall s :: 0 <= s < NUM_SECTORS ==> (bits'[s] <==> Occupied(files[a := File(sector, inode)], s))
  {
    var f := File(sector, inode);
    forall s ensures s in Sectors(f) ==> !Occupied(files, s) {
      TakesFree(bits, sector, inode, bits', s);
    }
    TakesFree(bits, sector, inode, bits', sector);
    AddFile(files, a, f);
    forall s | 0 <= s < NUM_SECTORS ensures bits'[s] <==> Occupied(files[a := f], s) {
      TakesFree(bits, sector, inode, bits', s);
    }
  }

  /** Adding an entry and its file to a sound system leaves it sound. */
  lemma CreateSound(bits: seq<bool>, entries: seq<Entry>, files: map<nat, File>, key: CString,
                    sector: int, inode: Inode, bits': seq<bool>, index: int, entry: Entry)
    requires Sound(bits, entries, files)
    requires Takes(bits, sector, inode, bits') && Enters(entries, key, index, entry, sector)
    ensures !Occupied(files, sector) && index + 2 !in files
    ensures Sound(bits', entries[index := entry], files[index + 2 := File(sector, inode)])
  {
    EntersTable(entries, files, key, index, entry, File(sector, inode));
    TakesSectors(bits, files, index + 2, sector, inode, bits');
    assert sector == Sectors(File(sector, inode))[0];
  }

  /** A header written to an unoccupied sector, then the directory, then the free map. */
  /** A header written to a sector no file has leaves every file as it was. */
  lemma HeaderLeaves(files: map<nat, File>, d: Image, d': Image, sector: int, inode: Inode)
    requires Disjoint(files) && ReadsAs(d, files) && WroteHeader(d, d', sector, inode) && !Occupied(files, sector)
    ensures ReadsAs(d', files) && forall a, s :: a in files && s in Sectors(files[a]) ==> s != sector && d'[s] == d[s]
  {
    hide DecodeHeader;
    forall a, s | a in files && s in Sectors(files[a])
      ensures s != sector
    {
      assert Occupied(files, s);
    }
    forall a | a in files
      ensures HeaderAt(d', files[a].sector) == files[a].inode
    {
      assert files[a].sector == Sectors(files[a])[0];
    }
  }

  lemma AlsoElsewhere(files: map<nat, File>, d: Image, mid: Image, d': Image)
    requires Disjoint(files) && 0 in files && 1 in files && SameElsewhere(files, mid, d')
    requires forall a, s :: a in files && s in Sectors(files[a]) ==> mid[s] == d[s]
    ensures SameElsewhere(files, d, d')
  {
    hide Disjoint, Sectors, DataBlocks, Good;
  }

  /** Rewriting the two system files leaves a sector no file has as it was. */
  lemma FreeKept(files: map<nat, File>, d: Image, mid: Image, d': Image, entries: seq<Entry>, bits: seq<bool>, sector: int)
    requires Disjoint(files) && HasSystemFiles(files) && 0 <= sector < NUM_SECTORS && !Occupied(files, sector)
    requires WroteTable(d, mid, files[1].inode, entries) && WroteMap(mid, d', files[0].inode, bits)
    ensures d'[sector] == d[sector]
  {
    hide FileBytes, DecodeTable, DecodeWords, Unpack, Disjoint, DataBlocks;
    assert sector !in Sectors(files[0]) && sector !in Sectors(files[1]);
  }

  lemma CreateDecodes(files: map<nat, File>, d: Image, d': Image, c: Creation, entries: seq<Entry>)
    requires Disjoint(files) && HasSystemFiles(files) && ReadsAs(d, files)
    requires WroteHeader(d, c.withHeader, c.sector, c.inode) && !Occupied(files, c.sector)
    requires WroteTable(c.withHeader, c.withEntry, files[1].inode, entries)
    requires WroteMap(c.withEntry, d', files[0].inode, c.bits)
    ensures SameElsewhere(files, d, d') && ReadsAs(d', files)
    ensures SystemFiles(d') && Table(d') == entries && FreeMap(d') == c.bits
    ensures HeaderAt(d', c.sector) == c.inode
  {
    hide FileBytes, DecodeTable, DecodeWords, Unpack, DecodeHeader, Disjoint, Occupied, Sectors, DataBlocks, FreeMap, Table;
    hide ReadsAs, SameElsewhere, SystemFiles;
    HeaderLeaves(files, d, c.withHeader, c.sector, c.inode);
    TableThenMap(files, c.withHeader, c.withEntry, d', entries, c.bits);
    AlsoElsewhere(files, d, c.withHeader, d');
    FreeKept(files, c.withHeader, c.withEntry, d', entries, c.bits, c.sector);
  }

  lemma FilesAre(d: Image, entries: seq<Entry>, files: map<nat, File>)
    requires |entries| == NUM_DIR_ENTRIES && SlotsMatch(entries, files) && Disjoint(files) && ReadsAs(d, files)
    ensures InRange(entries) && FilesOf(d, entries) == files
  {
    forall i | 0 <= i < NUM_DIR_ENTRIES && entries[i].inUse
      ensures 0 <= entries[i].sector < NUM_SECTORS
    {
      assert SlotUsed(entries, i + 2);
    }
  }

  /** A disk that decodes to sound contents and whose headers read as the files is consistent. */
  lemma ConsistentFrom(d: Image, bits: seq<bool>, entries: seq<Entry>, files: map<nat, File>)
    requires SystemFiles(d) && FreeMap(d) == bits && Table(d) == entries
    requires Sound(bits, entries, files) && ReadsAs(d, files)
    ensures Consistent(d) && Files(d) == files
  {
    FilesAre(d, entries, files);
  }

  /** User files other than the ones being written keep their bytes. */
  ghost predicate SameBytes(files: map<nat, File>, d: Image, d': Image)
    requires Disjoint(files)
  {
    forall a :: a in files && a >= 2 ==> FileBytes(d', files[a].inode) == FileBytes(d, files[a].inode)
  }

  lemma KeptBytes(files: map<nat, File>, d: Image, d': Image)
    requires Disjoint(files) && 0 in files && 1 in files && ReadsAs(d, files) && SameElsewhere(files, d, d')
    ensures SameBytes(files, d, d')
  {
    forall a | a in files && a >= 2 ensures FileBytes(d', files[a].inode) == FileBytes(d, files[a].inode) {
      KeptFile(files, d, d', a);
    }
  }

  lemma CreateOn(bits: seq<bool>, entries: seq<Entry>, files: map<nat, File>,
                 d: Image, key: CString, c: Creation, d': Image)
    requires Sound(bits, entries, files) && ReadsAs(d, files)
    requires Takes(bits, c.sector, c.inode, c.bits) && Enters(entries, key, c.index, c.entry, c.sector)
    requires WroteHeader(d, c.withHeader, c.sector, c.inode)
    requires WroteTable(c.withHeader, c.withEntry, files[1].inode, entries[c.index := c.entry])
    requires WroteMap(c.withEntry, d', files[0].inode, c.bits)
    ensures Consistent(d') && Files(d') == files[c.index + 2 := File(c.sector, c.inode)]
    ensures Table(d') == entries[c.index := c.entry] && SameBytes(files, d, d')
    ensures FreeMap(d') == c.bits && c.index + 2 !in files
  {
    hide FileBytes, DecodeHeader, DecodeTable, DecodeWords, Unpack, FilesOf, SameBytes, SameElsewhere, UniqueNames, TakesLowest;
    CreateSound(bits, entries, files, key, c.sector, c.inode, c.bits, c.index, c.entry);
    CreateDecodes(files, d, d', c, entries[c.index := c.entry]);
    ConsistentFrom(d', c.bits, entries[c.index := c.entry], files[c.index + 2 := File(c.sector, c.inode)]);
    KeptBytes(files, d, d');
  }

  lemma CreateKeeps(d: Image, key: CString, size: int32, c: Creation, d': Image)
    requires Consistent(d) && Creates(d, key, size, c, d')
    ensures Consistent(d') && Files(d') == Files(d)[c.index + 2 := File(c.sector, c.inode)]
    ensures Table(d') == Table(d)[c.index := c.entry] && SameBytes(Files(d), d, d')
    ensures FreeMap(d') == c.bits && c.index + 2 !in Files(d)
  {
    CreateOn(FreeMap(d), Table(d), Files(d), d, key, c, d');
  }

  /** How one removal changed the disk: the free map became `bits` (giving the image
      `withMap`), and the directory entry at `index` became `entry`. */
  datatype Removal = Removal(index: int, entry: Entry, bits: seq<bool>, withMap: Image)

  /** `bits'` is the free map `bits` with exactly the sectors of `f` released. */
  ghost predicate Releases(bits: seq<bool>, f: File, bits': seq<bool>) {
    && |bits| == |bits'| == NUM_SECTORS && Good(f.inode)
    && forall s :: 0 <= s < NUM_SECTORS ==> (bits'[s] <==> bits[s] && s !in Sectors(f))
  }

  ghost predicate Removes(d: Image, key: CString, r: Removal, d': Image)
    requires Consistent(d)
  {
    && r.index != -1 && IsIndexOf(Table(d), key, r.index) && !r.entry.inUse
    && Releases(FreeMap(d), Files(d)[r.index + 2], r.bits)
    && WroteMap(d, r.withMap, HeaderAt(d, FREE_MAP_SECTOR), r.bits)
    && WroteTable(r.withMap, d', HeaderAt(d, DIRECTORY_SECTOR), Table(d)[r.index := r.entry])
  }

  /** Dropping an entry and its file from a sound system leaves it sound. */
  lemma RemoveSlots(entries: seq<Entry>, files: map<nat, File>, index: nat, entry: Entry)
    requires index < NUM_DIR_ENTRIES == |entries| && SlotsMatch(entries, files) && index + 2 in files && !entry.inUse
    ensures SlotsMatch(entries[index := entry], files - {index + 2})
  {
    var entries', files' := entries[index := entry], files - {index + 2};
    forall a: nat | a != index + 2
      ensures a in files' <==> SlotUsed(entries', a)
      ensures a in files' ==> files'[a].sector == SlotSector(entries', a)
    {
      assert a in files' <==> a in files;
    }
  }

  lemma RemoveSound(bits: seq<bool>, entries: seq<Entry>, files: map<nat, File>, index: nat, entry: Entry, bits': seq<bool>)
    requires Sound(bits, entries, files) && index < NUM_DIR_ENTRIES && index + 2 in files && !entry.inUse
    requires Releases(bits, files[index + 2], bits')
    ensures Sound(bits', entries[index := entry], files - {index + 2})
  {
    DropFile(files, index + 2);
    hide Occupied, Sectors, Disjoint, NameOf, DataBlocks, Good;
    var entries', files' := entries[index := entry], files - {index + 2};
    RemoveSlots(entries, files, index, entry);
    forall i, j | 0 <= i < j < |entries'| && entries'[i].inUse && entries'[j].inUse
      ensures NameOf(entries'[i].name) != NameOf(entries'[j].name)
    {
      assert entries[i].inUse && entries[j].inUse;
    }
  }

  lemma RemoveOn(bits: seq<bool>, entries: seq<Entry>, files: map<nat, File>, d: Image, r: Removal, d': Image)
    requires Sound(bits, entries, files) && ReadsAs(d, files)
    requires 0 <= r.index < NUM_DIR_ENTRIES && r.index + 2 in files && !r.entry.inUse
    requires Releases(bits, files[r.index + 2], r.bits)
    requires WroteMap(d, r.withMap, files[0].inode, r.bits)
    requires WroteTable(r.withMap, d', files[1].inode, entries[r.index := r.entry])
    ensures Consistent(d') && Files(d') == files - {r.index + 2}
    ensures Table(d') == entries[r.index := r.entry] && SameBytes(files, d, d')
    ensures FreeMap(d') == r.bits
  {
    hide FileBytes, DecodeHeader, DecodeTable, DecodeWords, Unpack, FilesOf, SameBytes, SameElsewhere, UniqueNames;
    RemoveSound(bits, entries, files, r.index, r.entry, r.bits);
    MapThenTable(files, d, r.withMap, d', entries[r.index := r.entry], r.bits);
    ConsistentFrom(d', r.bits, entries[r.index := r.entry], files - {r.index + 2});
    KeptBytes(files, d, d');
  }

  lemma RemoveKeeps(d: Image, key: CString, r: Removal, d': Image)
    requires Consistent(d) && Removes(d, key, r, d')
    ensures Consistent(d') && Files(d') == Files(d) - {r.index + 2}
    ensures Table(d') == Table(d)[r.index := r.entry] && SameBytes(Files(d), d, d')
    ensures FreeMap(d') == r.bits
  {
    RemoveOn(FreeMap(d), Table(d), Files(d), d, r, d');
  }

  /** `d'` differs from `d` only in sectors `changed` of the user file in slot `a`. */
  ghost predicate OnlyIn(files: map<nat, File>, a: nat, changed: seq<int>, d: Image, d': Image)
    requires Disjoint(files)
  {
    && a in files && a >= 2 && (forall s :: s in changed ==> s in Sectors(files[a]))
    && forall s :: 0 <= s < NUM_SECTORS && s !in changed ==> d'[s] == d[s]
  }

  lemma OthersKept(files: map<nat, File>, a: nat, changed: seq<int>, d: Image, d': Image, b: nat)
    requires Disjoint(files) && ReadsAs(d, files) && OnlyIn(files, a, changed, d, d')
    requires b in files && b != a
    ensures HeaderAt(d', files[b].sector) == files[b].inode
    ensures FileBytes(d', files[b].inode) == FileBytes(d, files[b].inode)
  {
    forall s | s in Sectors(files[b]) ensures d'[s] == d[s] {
      assert s !in Sectors(files[a]);
    }
    Untouched(d, d', files[b]);
  }

  /** Changing sectors of one user file leaves the free map and the directory alone. */
  lemma SystemKept(bits: seq<bool>, entries: seq<Entry>, files: map<nat, File>, a: nat, changed: seq<int>, d: Image, d': Image)
    requires Sound(bits, entries, files) && ReadsAs(d, files) && OnlyIn(files, a, changed, d, d')
    requires SystemFiles(d) && FreeMap(d) == bits && Table(d) == entries
    ensures SystemFiles(d') && FreeMap(d') == bits && Table(d') == entries
  {
    OthersKept(files, a, changed, d, d', 0);
    OthersKept(files, a, changed, d, d', 1);
  }

  /** A write into a user file is seen by that file only. */
  lemma WriteOn(bits: seq<bool>, entries: seq<Entry>, files: map<nat, File>, a: nat, position: nat, data: seq<byte>, d: Image, d': Image)
    requires Sound(bits, entries, files) && ReadsAs(d, files) && a in files && a >= 2
    requires SystemFiles(d) && FreeMap(d) == bits && Table(d) == entries
    requires position + |data| <= Length(files[a].inode) && Wrote(d, d', files[a].inode, position, data)
    ensures Consistent(d') && Files(d') == files && Table(d') == entries && FreeMap(d') == bits
    ensures forall b :: b in files && b >= 2 && b != a ==> FileBytes(d', files[b].inode) == FileBytes(d, files[b].inode)
  {
    var changed := DataBlocks(files[a].inode);
    assert OnlyIn(files, a, changed, d, d');
    SystemKept(bits, entries, files, a, changed, d, d');
    forall b | b in files
      ensures HeaderAt(d', files[b].sector) == files[b].inode
      ensures b != a ==> FileBytes(d', files[b].inode) == FileBytes(d, files[b].inode)
    {
      if b != a {
        OthersKept(files, a, changed, d, d', b);
      } else {
        HeaderNotData(files[a]);
      }
    }
    ConsistentFrom(d', bits, entries, files);
  }

  lemma HeaderNotData(f: File)
    requires Good(f.inode) && NoDup(Sectors(f))
    ensures f.sector !in DataBlocks(f.inode)
  {
    forall i | 0 <= i < |DataBlocks(f.inode)| ensures DataBlocks(f.inode)[i] != f.sector {
      assert Sectors(f)[0] == f.sector && Sectors(f)[i + 1] == DataBlocks(f.inode)[i];
    }
  }

  lemma WriteKeeps(d: Image, a: nat, position: nat, data: seq<byte>, d': Image)
    requires Consistent(d) && a in Files(d) && a >= 2
    requires position + |data| <= Length(Files(d)[a].inode) && Wrote(d, d', Files(d)[a].inode, position, data)
    ensures Consistent(d') && Files(d') == Files(d) && Table(d') == Table(d) && FreeMap(d') == FreeMap(d)
    ensures forall b :: b in Files(d) && b >= 2 && b != a ==>
      FileBytes(d', Files(d)[b].inode) == FileBytes(d, Files(d)[b].inode)
  {
    WriteOn(FreeMap(d), Table(d), Files(d), a, position, data, d, d');
  }

  lemma SameBlocks(f: File, now: Stamp)
    requires Good(f.inode)
    ensures Good(Restamped(f, now).inode) && DataBlocks(Restamped(f, now).inode) == DataBlocks(f.inode)
  {
  }

  lemma RestampDisjoint(files: map<nat, File>, files': map<nat, File>)
    requires files'.Keys == files.Keys && Disjoint(files)
    requires forall b :: b in files ==> Good(files'[b].inode) && files'[b].sector == files[b].sector
    requires forall b :: b in files ==> Sectors(files'[b]) == Sectors(files[b])
    ensures Disjoint(files')
  {
    hide Good, Sectors, NoDup;
  }

  /** Changing only the access date of one file keeps every sector's owner. */
  lemma RestampSound(bits: seq<bool>, entries: seq<Entry>, files: map<nat, File>, a: nat, now: Stamp)
    requires Sound(bits, entries, files) && a in files
    ensures Sound(bits, entries, files[a := Restamped(files[a], now)])
  {
    var files' := files[a := Restamped(files[a], now)];
    hide DataBlocks;
    assert DataBlocks(Restamped(files[a], now).inode) == DataBlocks(files[a].inode) by {
      SameBlocks(files[a], now);
    }
    forall b | b in files
      ensures Good(files'[b].inode) && Sectors(files'[b]) == Sectors(files[b])
    {
    }
    hide Sectors, Good;
    RestampDisjoint(files, files');
    forall s
      ensures Occupied(files', s) <==> Occupied(files, s)
    {
      if Occupied(files, s) {
        var b :| b in files && s in Sectors(files[b]);
        assert b in files' && s in Sectors(files'[b]);
      }
    }
  }

  function Restamped(f: File, now: Stamp): File {
    f.(inode := f.inode.(accessed := now))
  }

  lemma TouchReads(files: map<nat, File>, a: nat, now: Stamp, d: Image, d': Image)
    requires Disjoint(files) && ReadsAs(d, files) && a in files && OnlyIn(files, a, [files[a].sector], d, d')
    requires HeaderAt(d', files[a].sector) == Restamped(files[a], now).inode
    ensures SameBytes(files, d, d')
    ensures forall b :: b in files ==>
      HeaderAt(d', files[b].sector) == if b == a then Restamped(files[a], now).inode else files[b].inode
  {
    HeaderNotData(files[a]);
    forall b | b in files && b != a
      ensures HeaderAt(d', files[b].sector) == files[b].inode
      ensures FileBytes(d', files[b].inode) == FileBytes(d, files[b].inode)
    {
      OthersKept(files, a, [files[a].sector], d, d', b);
    }
    BytesKept(d, d', files[a].inode);
  }

  lemma SoundDisjoint(bits: seq<bool>, entries: seq<Entry>, files: map<nat, File>)
    requires Sound(bits, entries, files)
    ensures Disjoint(files) && |bits| == NUM_SECTORS && |entries| == NUM_DIR_ENTRIES && HasSystemFiles(files)
  {
  }

  lemma TouchedOnly(files: map<nat, File>, a: nat, d: Image, d': Image)
    requires Disjoint(files) && a in files && a >= 2
    requires forall s :: 0 <= s < NUM_SECTORS && s != files[a].sector ==> d'[s] == d[s]
    ensures OnlyIn(files, a, [files[a].sector], d, d')
  {
    assert Sectors(files[a])[0] == files[a].sector;
  }

  lemma TouchedReads(files: map<nat, File>, a: nat, now: Stamp, d: Image, d': Image)
    requires Disjoint(files) && ReadsAs(d, files) && a in files && OnlyIn(files, a, [files[a].sector], d, d')
    requires HeaderAt(d', files[a].sector) == Restamped(files[a], now).inode && Disjoint(files[a := Restamped(files[a], now)])
    ensures SameBytes(files, d, d') && ReadsAs(d', files[a := Restamped(files[a], now)])
  {
    hide Disjoint, OnlyIn, DecodeHeader, FileBytes;
    TouchReads(files, a, now, d, d');
  }

  lemma TouchOn(bits: seq<bool>, entries: seq<Entry>, files: map<nat, File>, a: nat, now: Stamp, d: Image, d': Image)
    requires Sound(bits, entries, files) && ReadsAs(d, files) && a in files && a >= 2
    requires SystemFiles(d) && FreeMap(d) == bits && Table(d) == entries
    requires forall s :: 0 <= s < NUM_SECTORS && s != files[a].sector ==> d'[s] == d[s]
    requires HeaderAt(d', files[a].sector) == Restamped(files[a], now).inode
    ensures Consistent(d') && Files(d') == files[a := Restamped(files[a], now)]
    ensures Table(d') == entries && SameBytes(files, d, d')
  {
    hide Sound, Disjoint, OnlyIn, SystemFiles, FreeMap, Table, DecodeHeader, FileBytes, Consistent, ReadsAs, SameBytes;
    var files' := files[a := Restamped(files[a], now)];
    SoundDisjoint(bits, entries, files);
    TouchedOnly(files, a, d, d');
    SystemKept(bits, entries, files, a, [files[a].sector], d, d');
    RestampSound(bits, entries, files, a, now);
    SoundDisjoint(bits, entries, files');
    TouchedReads(files, a, now, d, d');
    ConsistentFrom(d', bits, entries, files');
  }

  /** Only the header of `f` was rewritten, and only its access date changed. */
  ghost predicate Touches(d: Image, f: File, now: Stamp, d': Image)
    requires 0 <= f.sector < NUM_SECTORS
  {
    && (forall s :: 0 <= s < NUM_SECTORS && s != f.sector ==> d'[s] == d[s])
    && HeaderAt(d', f.sector) == Restamped(f, now).inode
  }

  lemma TouchKeeps(d: Image, a: nat, now: Stamp, d': Image)
    requires Consistent(d) && a in Files(d) && a >= 2
    requires Touches(d, Files(d)[a], now, d')
    ensures Consistent(d') && Table(d') == Table(d) && SameBytes(Files(d), d, d')
    ensures Files(d') == Files(d)[a := Restamped(Files(d)[a], now)]
  {
    TouchOn(FreeMap(d), Table(d), Files(d), a, now, d, d');
  }
}
