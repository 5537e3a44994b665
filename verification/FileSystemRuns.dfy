/** Every run of file-system operations, seen by its user as a map from names to bytes. */
module FileSystemRuns {
  import opened Bytes
  import opened BitMaps
  import opened DiskImages
  import opened FileHeaders
  import opened OpenFiles
  import opened Directories
  import opened FileSystemSpec
  import opened FileSystemSteps

  /** Operations on closed files by name; writes go through a handle that Open returned. */
  datatype Op =
    | CreateOp(name: CString, size: int32)
    | RemoveOp(name: CString)
    | WriteOp(name: CString, position: nat, data: seq<byte>)
    | TouchOp(name: CString, now: Stamp)

  /** Sizes the direct blocks of a header can describe */
  predicate DirectSize(size: int32) {
    -SECTOR_SIZE < size <= DIRECT_BYTES
  }

  ghost predicate CreateStep(d: Image, key: CString, size: int32, ok: bool, d': Image)
    requires Consistent(d)
  {
    && (ok <==> CanCreate(d, key, size))
    && (!ok ==> d' == d)
    && (ok ==> exists c :: Creates(d, key, size, c, d'))
  }

  ghost predicate RemoveStep(d: Image, key: CString, ok: bool, d': Image)
    requires Consistent(d)
  {
    && (ok <==> !IsIndexOf(Table(d), key, -1))
    && (!ok ==> d' == d)
    && (ok ==> exists r :: Removes(d, key, r, d'))
  }

  ghost predicate WriteStep(d: Image, key: CString, position: nat, data: seq<byte>, ok: bool, d': Image)
    requires Consistent(d)
  {
    && (ok <==> !IsIndexOf(Table(d), key, -1))
    && (!ok ==> d' == d)
    && (ok ==> exists a :: WritesSlot(d, key, a, position, data, d'))
  }

  ghost predicate TouchStep(d: Image, key: CString, now: Stamp, ok: bool, d': Image)
    requires Consistent(d)
  {
    && (ok <==> !IsIndexOf(Table(d), key, -1))
    && (!ok ==> d' == d)
    && (ok ==> exists a :: TouchesSlot(d, key, a, now, d'))
  }

  /** What one operation does to the disk, sector by sector */
  ghost predicate Step(d: Image, op: Op, ok: bool, d': Image)
    requires Consistent(d)
  {
    match op
    case CreateOp(name, size) => DirectSize(size) && CreateStep(d, Key(name), size, ok, d')
    case RemoveOp(name) => RemoveStep(d, Key(name), ok, d')
    case WriteOp(name, position, data) => WriteStep(d, Key(name), position, data, ok, d')
    case TouchOp(name, now) => TouchStep(d, Key(name), now, ok, d')
  }

  ghost predicate TouchesSlot(d: Image, key: CString, a: nat, now: Stamp, d': Image)
    requires Consistent(d)
  {
    a in Files(d) && a >= 2 && Holds(Table(d)[a - 2], key) && Touches(d, Files(d)[a], now, d')
  }

  ghost predicate WritesSlot(d: Image, key: CString, a: nat, position: nat, data: seq<byte>, d': Image)
    requires Consistent(d)
  {
    && a in Files(d) && a >= 2 && Holds(Table(d)[a - 2], key)
    && var inode := Files(d)[a].inode;
       var n := Clip(Length(inode), |data|, position);
       if n == 0 then d' == d else Wrote(d, d', inode, position, data[..n])
  }

  /** What the user should see of the same operation */
  predicate Effect(m: Model, op: Op, ok: bool, m': Model) {
    var key := Key(op.name);
    match op
    case CreateOp(_, size) =>
      && (ok <==> key !in m && |m| < NUM_DIR_ENTRIES)
      && (if ok then key in m' && |m'[key]| == (if size < 0 then 0 else size) && m' == m[key := m'[key]] else m' == m)
    case RemoveOp(_) =>
      && (ok <==> key in m) && m' == m - {key}
    case WriteOp(_, position, data) =>
      && (ok <==> key in m) && m' == (if ok then m[key := Put(m[key], position, data).0] else m)
    case TouchOp(_, _) =>
      && (ok <==> key in m) && m' == m
  }

  /** Putting a new name into an unused place adds that name and moves no other. */
  lemma NamesAdd(entries: seq<Entry>, key: CString, index: nat, entry: Entry, k: CString)
    requires index < |entries| && !entries[index].inUse && Holds(entry, key) && IsIndexOf(entries, key, -1)
    requires UniqueNames(entries[index := entry])
    ensures k in Names(entries[index := entry]) <==> k == key || k in Names(entries)
    ensures k in Names(entries) ==> Search(entries[index := entry], k, 0) == Search(entries, k, 0) != index
    ensures Search(entries[index := entry], key, 0) == index
  {
    var entries' := entries[index := entry];
    NamesAre(entries, k);
    NamesAre(entries', k);
    SearchUnique(entries', key, index);
    if k in Names(entries) {
      SearchUnique(entries', k, Search(entries, k, 0));
    }
  }

  /** Clearing a used place drops its name and moves no other. */
  lemma NamesDrop(entries: seq<Entry>, key: CString, index: nat, entry: Entry, k: CString)
    requires UniqueNames(entries) && index < |entries| && Holds(entries[index], key) && !entry.inUse
    ensures k in Names(entries[index := entry]) <==> k != key && k in Names(entries)
    ensures k in Names(entries[index := entry]) ==> Search(entries[index := entry], k, 0) == Search(entries, k, 0) != index
  {
    var entries' := entries[index := entry];
    NamesAre(entries, k);
    NamesAre(entries', k);
    SearchUnique(entries, key, index);
    if k in Names(entries') {
      SearchUnique(entries, k, Search(entries', k, 0));
    }
    if k in Names(entries) && k != key {
      var i := Search(entries, k, 0);
      assert i != index && entries'[i] == entries[i];
    }
  }

  lemma ValueAdd(entries: seq<Entry>, bytes: map<nat, seq<byte>>, key: CString, index: nat, entry: Entry, b: seq<byte>, k: CString)
    requires Covers(entries, bytes)
    requires index < |entries| && !entries[index].inUse && Holds(entry, key) && IsIndexOf(entries, key, -1)
    requires UniqueNames(entries[index := entry])
    ensures Covers(entries[index := entry], bytes[index + 2 := b])
    ensures k in Names(entries[index := entry]) <==> k == key || k in Names(entries)
    ensures k in Names(entries[index := entry]) ==>
      ValueOf(entries[index := entry], bytes[index + 2 := b], k) == if k == key then b else ValueOf(entries, bytes, k)
  {
    hide Search, Names, UniqueNames, NameOf;
    NamesAdd(entries, key, index, entry, k);
  }

  lemma ViewOfAdd(entries: seq<Entry>, bytes: map<nat, seq<byte>>, key: CString, index: nat, entry: Entry, b: seq<byte>)
    requires Covers(entries, bytes)
    requires index < |entries| && !entries[index].inUse && Holds(entry, key) && IsIndexOf(entries, key, -1)
    requires UniqueNames(entries[index := entry])
    ensures Covers(entries[index := entry], bytes[index + 2 := b])
    ensures ViewOf(entries[index := entry], bytes[index + 2 := b]) == ViewOf(entries, bytes)[key := b]
  {
    hide Names, ValueOf, Covers, UniqueNames;
    ValueAdd(entries, bytes, key, index, entry, b, key);
    var v, w := ViewOf(entries[index := entry], bytes[index + 2 := b]), ViewOf(entries, bytes)[key := b];
    forall k ensures k in v <==> k in w {
      ValueAdd(entries, bytes, key, index, entry, b, k);
    }
    forall k | k in v ensures v[k] == w[k] {
      ValueAdd(entries, bytes, key, index, entry, b, k);
    }
  }

  lemma ValueDrop(entries: seq<Entry>, bytes: map<nat, seq<byte>>, key: CString, index: nat, entry: Entry, k: CString)
    requires UniqueNames(entries) && Covers(entries, bytes)
    requires index < |entries| && Holds(entries[index], key) && !entry.inUse
    ensures Covers(entries[index := entry], bytes - {index + 2})
    ensures k in Names(entries[index := entry]) <==> k != key && k in Names(entries)
    ensures k in Names(entries[index := entry]) ==>
      ValueOf(entries[index := entry], bytes - {index + 2}, k) == ValueOf(entries, bytes, k)
  {
    hide Search, Names, UniqueNames, NameOf;
    NamesDrop(entries, key, index, entry, k);
  }

  lemma ViewOfDrop(entries: seq<Entry>, bytes: map<nat, seq<byte>>, key: CString, index: nat, entry: Entry)
    requires UniqueNames(entries) && Covers(entries, bytes)
    requires index < |entries| && Holds(entries[index], key) && !entry.inUse
    ensures Covers(entries[index := entry], bytes - {index + 2})
    ensures ViewOf(entries[index := entry], bytes - {index + 2}) == ViewOf(entries, bytes) - {key}
  {
    hide Names, ValueOf, Covers, UniqueNames;
    ValueDrop(entries, bytes, key, index, entry, key);
    var v, w := ViewOf(entries[index := entry], bytes - {index + 2}), ViewOf(entries, bytes) - {key};
    forall k ensures k in v <==> k in w {
      ValueDrop(entries, bytes, key, index, entry, k);
    }
    forall k | k in v ensures v[k] == w[k] {
      ValueDrop(entries, bytes, key, index, entry, k);
    }
  }

  lemma ViewOfSet(entries: seq<Entry>, bytes: map<nat, seq<byte>>, key: CString, index: nat, b: seq<byte>)
    requires UniqueNames(entries) && Covers(entries, bytes)
    requires index < |entries| && Holds(entries[index], key)
    ensures Covers(entries, bytes[index + 2 := b]) && key in Names(entries)
    ensures ViewOf(entries, bytes)[key] == bytes[index + 2]
    ensures ViewOf(entries, bytes[index + 2 := b]) == ViewOf(entries, bytes)[key := b]
  {
    SearchUnique(entries, key, index);
    forall k | k in Names(entries) && k != key ensures Search(entries, k, 0) != index {
      NamesAre(entries, k);
    }
  }

  /** Only the bytes of user files matter to the view. */
  lemma ViewAgrees(entries: seq<Entry>, bytes: map<nat, seq<byte>>, bytes': map<nat, seq<byte>>)
    requires Covers(entries, bytes) && Covers(entries, bytes')
    requires forall i :: 0 <= i < |entries| && entries[i].inUse ==> bytes[i + 2] == bytes'[i + 2]
    ensures ViewOf(entries, bytes) == ViewOf(entries, bytes')
  {
  }

  lemma SlotsCovered(entries: seq<Entry>, files: map<nat, File>, d: Image)
    requires |entries| == NUM_DIR_ENTRIES && SlotsMatch(entries, files) && Disjoint(files)
    ensures Covers(entries, SlotBytes(d, files))
  {
  }

  lemma CreateViewOn(entries: seq<Entry>, files: map<nat, File>, d: Image, key: CString, c: Creation, d': Image, files': map<nat, File>)
    requires |entries| == NUM_DIR_ENTRIES && SlotsMatch(entries, files) && Disjoint(files)
    requires Enters(entries, key, c.index, c.entry, c.sector)
    requires files' == files[c.index + 2 := File(c.sector, c.inode)] && Disjoint(files')
    requires SlotsMatch(entries[c.index := c.entry], files') && UniqueNames(entries[c.index := c.entry])
    requires Good(c.inode) && SameBytes(files, d, d')
    ensures Covers(entries, SlotBytes(d, files)) && Covers(entries[c.index := c.entry], SlotBytes(d', files'))
    ensures ViewOf(entries[c.index := c.entry], SlotBytes(d', files')) ==
      ViewOf(entries, SlotBytes(d, files))[key := FileBytes(d', c.inode)]
  {
    hide FileBytes, Names, Search, UniqueNames, ViewOf, ValueOf;
    SlotsCovered(entries, files, d);
    SlotsCovered(entries[c.index := c.entry], files', d');
    var bytes, b := SlotBytes(d, files), FileBytes(d', c.inode);
    ViewOfAdd(entries, bytes, key, c.index, c.entry, b);
    ViewAgrees(entries[c.index := c.entry], SlotBytes(d', files'), bytes[c.index + 2 := b]);
  }

  lemma CreateView(d: Image, key: CString, size: int32, c: Creation, d': Image)
    requires Consistent(d) && Creates(d, key, size, c, d')
    ensures Consistent(d') && key !in View(d) && View(d') == View(d)[key := FileBytes(d', c.inode)]
  {
    CreateKeeps(d, key, size, c, d');
    NamesAre(Table(d), key);
    CreateViewOn(Table(d), Files(d), d, key, c, d', Files(d'));
  }

  lemma RemoveViewOn(entries: seq<Entry>, files: map<nat, File>, d: Image, key: CString, index: nat, entry: Entry, d': Image)
    requires |entries| == NUM_DIR_ENTRIES && SlotsMatch(entries, files) && Disjoint(files) && UniqueNames(entries)
    requires index < NUM_DIR_ENTRIES && Holds(entries[index], key) && !entry.inUse
    requires Disjoint(files - {index + 2}) && SlotsMatch(entries[index := entry], files - {index + 2})
    requires SameBytes(files, d, d')
    ensures Covers(entries, SlotBytes(d, files)) && Covers(entries[index := entry], SlotBytes(d', files - {index + 2}))
    ensures ViewOf(entries[index := entry], SlotBytes(d', files - {index + 2})) ==
      ViewOf(entries, SlotBytes(d, files)) - {key}
  {
    SlotsCovered(entries, files, d);
    SlotsCovered(entries[index := entry], files - {index + 2}, d');
    var bytes := SlotBytes(d, files);
    ViewOfDrop(entries, bytes, key, index, entry);
    ViewAgrees(entries[index := entry], SlotBytes(d', files - {index + 2}), bytes - {index + 2});
  }

  lemma RemoveView(d: Image, key: CString, r: Removal, d': Image)
    requires Consistent(d) && Removes(d, key, r, d')
    ensures Consistent(d') && View(d') == View(d) - {key}
  {
    hide FileBytes, DecodeHeader, DecodeTable, DecodeWords, Unpack, Names, Search, FilesOf, Wrote, Releases;
    hide SlotsMatch, Disjoint, SameBytes, UniqueNames, Occupied;
    RemoveKeeps(d, key, r, d');
    RemoveViewOn(Table(d), Files(d), d, key, r.index, r.entry, d');
  }

  /** A change confined to the bytes of one slot changes one name's bytes. */
  lemma SetViewOn(entries: seq<Entry>, files: map<nat, File>, files': map<nat, File>, d: Image, d': Image, key: CString, a: nat, b: seq<byte>)
    requires |entries| == NUM_DIR_ENTRIES && SlotsMatch(entries, files) && Disjoint(files) && UniqueNames(entries)
    requires SlotsMatch(entries, files') && Disjoint(files')
    requires 2 <= a < NUM_SLOTS && a in files && Holds(entries[a - 2], key)
    requires forall x :: x in files && x >= 2 ==>
      FileBytes(d', files'[x].inode) == if x == a then b else FileBytes(d, files[x].inode)
    ensures Covers(entries, SlotBytes(d, files)) && Covers(entries, SlotBytes(d', files')) && key in Names(entries)
    ensures ViewOf(entries, SlotBytes(d, files))[key] == FileBytes(d, files[a].inode)
    ensures ViewOf(entries, SlotBytes(d', files')) == ViewOf(entries, SlotBytes(d, files))[key := b]
  {
    hide FileBytes, Names, Search, Disjoint, UniqueNames, ViewOf;
    SlotsCovered(entries, files, d);
    SlotsCovered(entries, files', d');
    var bytes := SlotBytes(d, files);
    ViewOfSet(entries, bytes, key, a - 2, b);
    forall i | 0 <= i < |entries| && entries[i].inUse
      ensures SlotBytes(d', files')[i + 2] == bytes[a := b][i + 2]
    {
      assert SlotUsed(entries, i + 2);
    }
    ViewAgrees(entries, SlotBytes(d', files'), bytes[a := b]);
  }

  lemma WriteView(d: Image, key: CString, a: nat, position: nat, data: seq<byte>, d': Image)
    requires Consistent(d) && WritesSlot(d, key, a, position, data, d')
    ensures Consistent(d') && key in View(d)
    ensures View(d') == View(d)[key := Put(View(d)[key], position, data).0]
  {
    var inode := Files(d)[a].inode;
    var n := Clip(Length(inode), |data|, position);
    if n > 0 {
      WriteKeeps(d, a, position, data[..n], d');
    }
    SetViewOn(Table(d), Files(d), Files(d), d, d', key, a, Put(FileBytes(d, inode), position, data).0);
  }

  lemma TouchView(d: Image, key: CString, a: nat, now: Stamp, d': Image)
    requires Consistent(d) && TouchesSlot(d, key, a, now, d')
    ensures Consistent(d') && key in View(d) && View(d') == View(d)
  {
    hide FileBytes, DecodeHeader, FreeMap, Table, FilesOf, Touches, Consistent, SlotsMatch, Disjoint, UniqueNames, ViewOf;
    ConsistentParts(d);
    TouchKeeps(d, a, now, d');
    ConsistentParts(d');
    TouchViewOn(Table(d), Files(d), d, d', key, a, now);
  }

  lemma ConsistentParts(d: Image)
    requires Consistent(d)
    ensures SystemFiles(d) && InRange(Table(d)) && |Table(d)| == NUM_DIR_ENTRIES
    ensures SlotsMatch(Table(d), Files(d)) && Disjoint(Files(d)) && UniqueNames(Table(d))
  {
    hide FreeMap, Table, FilesOf, SlotsMatch, Disjoint, UniqueNames;
  }

  lemma TouchViewOn(entries: seq<Entry>, files: map<nat, File>, d: Image, d': Image, key: CString, a: nat, now: Stamp)
    requires |entries| == NUM_DIR_ENTRIES && SlotsMatch(entries, files) && Disjoint(files) && UniqueNames(entries)
    requires 2 <= a < NUM_SLOTS && a in files && Holds(entries[a - 2], key) && SameBytes(files, d, d')
    requires var files' := files[a := Restamped(files[a], now)]; SlotsMatch(entries, files') && Disjoint(files')
    ensures var files' := files[a := Restamped(files[a], now)];
      && Covers(entries, SlotBytes(d, files)) && Covers(entries, SlotBytes(d', files'))
      && key in ViewOf(entries, SlotBytes(d, files))
      && ViewOf(entries, SlotBytes(d', files')) == ViewOf(entries, SlotBytes(d, files))
  {
    hide FileBytes, Names, SlotsMatch, UniqueNames, Search;
    var files' := files[a := Restamped(files[a], now)];
    RestampedBytes(d', files[a].inode, now);
    SetViewOn(entries, files, files', d, d', key, a, FileBytes(d, files[a].inode));
    var m := ViewOf(entries, SlotBytes(d, files));
    assert m[key := m[key]] == m;
  }

  /** Bits outside `marked` are clear, so there are at least that many clear ones. */
  lemma {:induction false} ClearOutside(bits: seq<bool>, marked: set<int>)
    requires forall i :: 0 <= i < |bits| && bits[i] ==> i in marked
    ensures CountClear(bits) + |marked| >= |bits|
  {
    if bits != [] {
      var n := |bits| - 1;
      if bits[n] {
        ClearOutside(bits[..n], marked - {n});
      } else {
        ClearOutside(bits[..n], marked);
      }
    }
  }

  function Elements(s: seq<int>): set<int> {
    set x | x in s
  }

  lemma {:induction false} ElementsBound(s: seq<int>)
    ensures |Elements(s)| <= |s|
  {
    if s != [] {
      var n := |s| - 1;
      ElementsBound(s[..n]);
      assert Elements(s) == Elements(s[..n]) + {s[n]};
    }
  }

  /** All sectors of the files in the first `n` slots */
  ghost function OccupiedBelow(files: map<nat, File>, n: nat): set<int>
    requires Disjoint(files)
  {
    if n == 0 then {}
    else OccupiedBelow(files, n - 1) + (if n - 1 in files then Elements(Sectors(files[n - 1])) else {})
  }

  lemma {:induction false} OccupiedBound(files: map<nat, File>, n: nat)
    requires Disjoint(files)
    ensures |OccupiedBelow(files, n)| <= n * (NUM_DIRECT + 1)
    ensures forall a, s :: a in files && a < n && s in Sectors(files[a]) ==> s in OccupiedBelow(files, n)
  {
    if n > 0 {
      OccupiedBound(files, n - 1);
      if n - 1 in files {
        ElementsBound(Sectors(files[n - 1]));
      }
    }
  }

  /** Twelve files of at most fifteen sectors each never fill the disk. */
  lemma SpaceLeft(bits: seq<bool>, entries: seq<Entry>, files: map<nat, File>)
    requires Sound(bits, entries, files)
    ensures CountClear(bits) >= NUM_SECTORS - NUM_SLOTS * (NUM_DIRECT + 1)
  {
    OccupiedBound(files, NUM_SLOTS);
    var marked := OccupiedBelow(files, NUM_SLOTS);
    forall s | 0 <= s < |bits| && bits[s] ensures s in marked {
      var a :| a in files && s in Sectors(files[a]);
      assert SlotUsed(entries, a);
    }
    ClearOutside(bits, marked);
  }

  lemma NamesSnoc(prefix: seq<Entry>, last: Entry)
    ensures Names(prefix + [last]) == Names(prefix) + (if last.inUse then {NameOf(last.name)} else {})
  {
    hide NameOf;
    var entries := prefix + [last];
    assert entries[|prefix|] == last;
    forall i | 0 <= i < |prefix| && prefix[i].inUse ensures NameOf(prefix[i].name) in Names(entries) {
      assert entries[i] == prefix[i];
    }
  }

  lemma {:induction false} NamesBound(entries: seq<Entry>)
    ensures |Names(entries)| <= |entries|
  {
    hide NameOf;
    if entries != [] {
      var n := |entries| - 1;
      NamesBound(entries[..n]);
      NamesSnoc(entries[..n], entries[n]);
      assert entries == entries[..n] + [entries[n]];
    }
  }

  /** With an unused place there are fewer names than places. */
  lemma {:induction false} NamesFewer(entries: seq<Entry>, i: nat)
    requires i < |entries| && !entries[i].inUse
    ensures |Names(entries)| < |entries|
  {
    hide NameOf;
    var n := |entries| - 1;
    NamesSnoc(entries[..n], entries[n]);
    assert entries == entries[..n] + [entries[n]];
    if i < n {
      NamesFewer(entries[..n], i);
    } else {
      NamesBound(entries[..n]);
    }
  }

  /** A full directory shows as many names as places, because the names differ. */
  lemma {:induction false} NamesFull(entries: seq<Entry>)
    requires UniqueNames(entries) && IsFirstUnused(entries, -1)
    ensures |Names(entries)| == |entries|
  {
    hide NameOf;
    if entries != [] {
      var n := |entries| - 1;
      var prefix, last := entries[..n], entries[n];
      NamesFull(prefix);
      NamesSnoc(prefix, last);
      assert entries == prefix + [last];
      forall i | 0 <= i < n ensures NameOf(prefix[i].name) != NameOf(last.name) {
        assert entries[i].inUse && entries[n].inUse;
      }
    }
  }

  lemma NamesCount(entries: seq<Entry>)
    requires UniqueNames(entries)
    ensures |Names(entries)| < |entries| <==> !IsFirstUnused(entries, -1)
  {
    if IsFirstUnused(entries, -1) {
      NamesFull(entries);
    } else {
      var i :| 0 <= i < |entries| && !entries[i].inUse;
      NamesFewer(entries, i);
    }
  }

  /** In a sound system a file within the direct range can be created unless its name is
      taken or ten files exist: running out of sectors is impossible. */
  lemma CanCreateIff(d: Image, key: CString, size: int32)
    requires Consistent(d) && DirectSize(size)
    ensures CanCreate(d, key, size) <==> key !in View(d) && |View(d)| < NUM_DIR_ENTRIES
  {
    hide FileBytes, DecodeHeader, DecodeTable, DecodeWords, Unpack, FilesOf;
    SpaceLeft(FreeMap(d), Table(d), Files(d));
    NamesAre(Table(d), key);
    NamesCount(Table(d));
    assert View(d).Keys == Names(Table(d));
  }

  lemma CreateEffect(d: Image, name: CString, size: int32, ok: bool, d': Image)
    requires Consistent(d) && Step(d, CreateOp(name, size), ok, d')
    ensures Consistent(d') && Effect(View(d), CreateOp(name, size), ok, View(d'))
  {
    hide FileBytes, DecodeHeader, DecodeTable, DecodeWords, Unpack, FilesOf, ViewOf, Sound;
    CanCreateIff(d, Key(name), size);
    if ok {
      var c :| Creates(d, Key(name), size, c, d');
      CreateView(d, Key(name), size, c, d');
    }
  }

  lemma RemoveEffect(d: Image, name: CString, ok: bool, d': Image)
    requires Consistent(d) && Step(d, RemoveOp(name), ok, d')
    ensures Consistent(d') && Effect(View(d), RemoveOp(name), ok, View(d'))
  {
    hide FileBytes, DecodeHeader, DecodeTable, DecodeWords, Unpack, FilesOf, Sound;
    NamesAre(Table(d), Key(name));
    if ok {
      var r :| Removes(d, Key(name), r, d');
      RemoveView(d, Key(name), r, d');
    }
  }

  lemma WriteEffect(d: Image, name: CString, position: nat, data: seq<byte>, ok: bool, d': Image)
    requires Consistent(d) && Step(d, WriteOp(name, position, data), ok, d')
    ensures Consistent(d') && Effect(View(d), WriteOp(name, position, data), ok, View(d'))
  {
    hide FileBytes, DecodeHeader, DecodeTable, DecodeWords, Unpack, FilesOf, Sound;
    NamesAre(Table(d), Key(name));
    if ok {
      var a :| WritesSlot(d, Key(name), a, position, data, d');
      WriteView(d, Key(name), a, position, data, d');
    }
  }

  lemma TouchEffect(d: Image, name: CString, now: Stamp, ok: bool, d': Image)
    requires Consistent(d) && Step(d, TouchOp(name, now), ok, d')
    ensures Consistent(d') && Effect(View(d), TouchOp(name, now), ok, View(d'))
  {
    hide FileBytes, DecodeHeader, DecodeTable, DecodeWords, Unpack, FilesOf, Sound;
    NamesAre(Table(d), Key(name));
    if ok {
      var a :| TouchesSlot(d, Key(name), a, now, d');
      TouchView(d, Key(name), a, now, d');
    }
  }

  /** Each operation keeps the disk sound and does to the named files what it should. */
  lemma StepEffect(d: Image, op: Op, ok: bool, d': Image)
    requires Consistent(d) && Step(d, op, ok, d')
    ensures Consistent(d') && Effect(View(d), op, ok, View(d'))
  {
    hide Consistent, View, Effect, Step;
    match op
    case CreateOp(name, size) => CreateEffect(d, name, size, ok, d');
    case RemoveOp(name) => RemoveEffect(d, name, ok, d');
    case WriteOp(name, position, data) => WriteEffect(d, name, position, data, ok, d');
    case TouchOp(name, now) => TouchEffect(d, name, now, ok, d');
  }

  /** A run: the images before, between and after the operations, and their results */
  ghost predicate Run(ds: seq<Image>, ops: seq<Op>, oks: seq<bool>) {
    && |ds| == |ops| + 1 && |oks| == |ops|
    && Consistent(ds[0])
    && forall i :: 0 <= i < |ops| && Consistent(ds[i]) ==> Step(ds[i], ops[i], oks[i], ds[i + 1])
  }

  /** Over every run the marked sectors are exactly the occupied ones, and the named files
      evolve as the operations say. */
  lemma {:induction false} RunSound(ds: seq<Image>, ops: seq<Op>, oks: seq<bool>, n: nat)
    requires Run(ds, ops, oks) && n <= |ops|
    ensures forall i :: 0 <= i <= n ==> Consistent(ds[i])
    ensures forall i :: 0 <= i < n ==> Effect(View(ds[i]), ops[i], oks[i], View(ds[i + 1]))
  {
    hide Consistent, View, Effect, Step;
    if n > 0 {
      RunSound(ds, ops, oks, n - 1);
      StepEffect(ds[n - 1], ops[n - 1], oks[n - 1], ds[n]);
    }
  }

  lemma BitsBack(bits: seq<bool>, sector: int, inode: Inode, taken: seq<bool>, bits': seq<bool>)
    requires Takes(bits, sector, inode, taken) && Releases(taken, File(sector, inode), bits')
    ensures bits' == bits
  {
  }

  lemma ViewBack(d: Image, key: CString, size: int32, c: Creation, d1: Image, r: Removal, d2: Image)
    requires Consistent(d) && Creates(d, key, size, c, d1)
    requires Consistent(d1) && Removes(d1, key, r, d2)
    ensures Consistent(d2) && View(d2) == View(d)
  {
    hide Consistent, View, Creates, Removes;
    CreateView(d, key, size, c, d1);
    RemoveView(d1, key, r, d2);
  }

  lemma SectorsBack(d: Image, key: CString, size: int32, c: Creation, d1: Image, r: Removal, d2: Image)
    requires Consistent(d) && Creates(d, key, size, c, d1)
    requires Consistent(d1) && Removes(d1, key, r, d2)
    ensures Consistent(d2) && FreeMap(d2) == FreeMap(d) && Files(d2) == Files(d)
  {
    hide FileBytes, DecodeHeader, DecodeTable, DecodeWords, Unpack, FilesOf, Search, Wrote, TakesLowest, SlotsMatch, Disjoint;
    CreateKeeps(d, key, size, c, d1);
    SearchUnique(Table(d1), key, r.index);
    SearchUnique(Table(d1), key, c.index);
    RemoveKeeps(d1, key, r, d2);
    BitsBack(FreeMap(d), c.sector, c.inode, c.bits, r.bits);
  }

  /** Creating a file and removing it again restores the free map, the files and every name. */
  lemma CreateThenRemove(d: Image, key: CString, size: int32, c: Creation, d1: Image, r: Removal, d2: Image)
    requires Consistent(d) && Creates(d, key, size, c, d1)
    requires Consistent(d1) && Removes(d1, key, r, d2)
    ensures Consistent(d2) && FreeMap(d2) == FreeMap(d) && Files(d2) == Files(d) && View(d2) == View(d)
  {
    ViewBack(d, key, size, c, d1, r, d2);
    SectorsBack(d, key, size, c, d1, r, d2);
  }
}
