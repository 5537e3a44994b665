/** filesys/openfile.cc: byte-granular access to a file through whole sectors. */
module OpenFiles {
  import opened Bytes
  import opened DiskImages
  import opened FileHeaders

  function Length(h: Inode): nat {
    if h.numBytes < 0 then 0 else h.numBytes
  }

  /** The file as one flat sequence of bytes */
  function FileBytes(d: Image, h: Inode): (s: seq<byte>)
    requires Good(h)
    ensures |s| == Length(h)
  {
    seq(Length(h), i requires 0 <= i < Length(h) => d[h.sectors[i / SECTOR_SIZE]][i % SECTOR_SIZE])
  }

  /** How much of a request for `numBytes` at `position` the file can serve */
  function Clip(length: nat, numBytes: int, position: nat): nat {
    if numBytes <= 0 || position >= length then 0
    else if position + numBytes > length then length - position
    else numBytes
  }

  function Splice(s: seq<byte>, position: nat, data: seq<byte>): seq<byte>
    requires position + |data| <= |s|
  {
    s[..position] + data + s[position + |data|..]
  }

  /** `d'` is `d` with `data` stored at `position` of file `h`, and nothing else changed
      that any file can see: every sector outside the file is untouched. */
  ghost predicate Wrote(d: Image, d': Image, h: Inode, position: nat, data: seq<byte>)
    requires Good(h) && position + |data| <= Length(h)
  {
    && (forall s :: 0 <= s < NUM_SECTORS && s !in DataBlocks(h) ==> d'[s] == d[s])
    && FileBytes(d', h) == Splice(FileBytes(d, h), position, data)
  }

  /** The part of a sector-aligned buffer that starts at file byte `base` and agrees with `s` on [from, to) */
  ghost predicate Agrees(buf: seq<byte>, base: nat, s: seq<byte>, from: int, to: int) {
    forall x :: from <= x < to && base <= x < base + |buf| && x < |s| ==> buf[x - base] == s[x]
  }

  /** Reading one more sector extends the agreement by that sector. */
  lemma OneSectorRead(before: seq<byte>, after: seq<byte>, base: nat, d: Image, h: Inode, i: nat)
    requires Good(h) && i < h.numSectors && base <= i * SECTOR_SIZE && base % SECTOR_SIZE == 0
    requires i * SECTOR_SIZE + SECTOR_SIZE - base <= |before|
    requires after == before[..i * SECTOR_SIZE - base] + d[h.sectors[i]] + before[i * SECTOR_SIZE - base + SECTOR_SIZE..]
    requires Agrees(before, base, FileBytes(d, h), base, i * SECTOR_SIZE)
    ensures Agrees(after, base, FileBytes(d, h), base, i * SECTOR_SIZE + SECTOR_SIZE)
  {
  }

  /** Overlaying new data on a buffer whose edges agree with the old file gives the new file. */
  lemma Overlaid(edges: seq<byte>, buf: seq<byte>, base: nat, s: seq<byte>, position: nat, data: seq<byte>)
    requires base <= position && position + |data| <= |s| && position + |data| <= base + |edges|
    requires buf == edges[..position - base] + data + edges[position - base + |data|..]
    requires Agrees(edges, base, s, base, position)
    requires Agrees(edges, base, s, position + |data|, base + |edges|)
    ensures Agrees(buf, base, Splice(s, position, data), base, base + |buf|)
  {
  }

  /** Reading one file sector into its place in the buffer makes the buffer agree there
      and leaves what came before alone. */
  lemma EdgeRead(before: seq<byte>, after: seq<byte>, at: nat, base: nat, s: seq<byte>, from: int, to: int)
    requires at + SECTOR_SIZE <= |before| && base + at < |s|
    requires var r := Clip(|s|, SECTOR_SIZE, base + at);
      after == before[..at] + s[base + at..base + at + r] + before[at + r..]
    requires Agrees(before, base, s, from, to) && to <= base + at
    ensures Agrees(after, base, s, base + at, base + at + SECTOR_SIZE)
    ensures Agrees(after, base, s, from, to)
  {
  }

  /** File `h` on `d` is file `h` on `d0` with the bytes in [base, to) taken from `buf`. */
  ghost predicate Stored(d: Image, d0: Image, h: Inode, buf: seq<byte>, base: nat, to: nat)
    requires Good(h)
  {
    && to <= base + |buf|
    && forall x :: 0 <= x < Length(h) ==>
      FileBytes(d, h)[x] == if base <= x < to then buf[x - base] else FileBytes(d0, h)[x]
  }

  lemma OneSectorWritten(d: Image, d': Image, d0: Image, h: Inode, buf: seq<byte>, base: nat, i: nat)
    requires Good(h) && NoDup(DataBlocks(h)) && i < h.numSectors
    requires base <= i * SECTOR_SIZE && i * SECTOR_SIZE + SECTOR_SIZE - base <= |buf|
    requires d' == d[h.sectors[i] := buf[i * SECTOR_SIZE - base..i * SECTOR_SIZE - base + SECTOR_SIZE]]
    requires Stored(d, d0, h, buf, base, i * SECTOR_SIZE)
    ensures Stored(d', d0, h, buf, base, i * SECTOR_SIZE + SECTOR_SIZE)
  {
    forall x | 0 <= x < Length(h)
      ensures FileBytes(d', h)[x] ==
        if base <= x < i * SECTOR_SIZE + SECTOR_SIZE then buf[x - base] else FileBytes(d0, h)[x]
    {
      var k := x / SECTOR_SIZE;
      assert DataBlocks(h)[k] == h.sectors[k] && DataBlocks(h)[i] == h.sectors[i];
      if k == i {
        assert x % SECTOR_SIZE == x - i * SECTOR_SIZE;
      } else {
        assert FileBytes(d', h)[x] == FileBytes(d, h)[x];
      }
    }
  }

  lemma StoredSplice(d: Image, d0: Image, h: Inode, buf: seq<byte>, base: nat, position: nat, data: seq<byte>)
    requires Good(h) && position + |data| <= Length(h)
    requires base <= position && position + |data| <= base + |buf|
    requires Stored(d, d0, h, buf, base, base + |buf|)
    requires Agrees(buf, base, Splice(FileBytes(d0, h), position, data), base, base + |buf|)
    ensures FileBytes(d, h) == Splice(FileBytes(d0, h), position, data)
  {
  }

  /** A file's bytes do not depend on its access date. */
  lemma RestampedBytes(d: Image, h: Inode, now: Stamp)
    requires Good(h)
    ensures FileBytes(d, h.(accessed := now)) == FileBytes(d, h)
  {
  }

  /** Rewriting a whole file leaves exactly the new bytes. */
  lemma WroteWhole(d: Image, d': Image, h: Inode, data: seq<byte>)
    requires Good(h) && |data| == Length(h) && Wrote(d, d', h, 0, data)
    ensures FileBytes(d', h) == data
  {
  }

  /** Writing a sector outside the file, or changing a date, leaves the file's bytes. */
  lemma HeaderWriteKeeps(d: Image, h: Inode, sector: int, now: Stamp, x: Sector)
    requires Good(h) && 0 <= sector < NUM_SECTORS && sector !in DataBlocks(h)
    ensures Good(h.(accessed := now)) && DataBlocks(h.(accessed := now)) == DataBlocks(h)
    ensures FileBytes(d[sector := x], h.(accessed := now)) == FileBytes(d, h)
  {
  }

  /** Reading all of a file from its start fills a buffer of its length with it. */
  lemma WholeRead(s: seq<byte>, before: seq<byte>, after: seq<byte>, result: nat)
    requires |before| == |after| && result == Clip(|s|, |before|, 0) && (result == 0 ==> after == before)
    requires result > 0 ==> after == before[..0] + s[0..result] + before[result..]
    ensures |s| == |after| ==> after == s
  {
  }

  lemma TakenAt(s: seq<byte>, before: seq<byte>, after: seq<byte>, numBytes: int, position: nat)
    requires Clip(|s|, numBytes, position) <= |before| == |after|
    requires var n := Clip(|s|, numBytes, position);
      n > 0 ==> after == before[..0] + s[position..position + n] + before[n..]
    ensures after[..Clip(|s|, numBytes, position)] == Take(s, position, numBytes).0
  {
  }

  class OpenFile {
    const disk: SynchDisk
    const hdr: FileHeader
    const hdrSector: int
    var seekPosition: int

    ghost predicate Valid()
      reads hdr, hdr.dataSectors
    {
      hdr.Valid() && Good(hdr.Value()) && NoDup(DataBlocks(hdr.Value()))
    }

    ghost function Contents(): seq<byte>
      requires Valid()
      reads hdr, hdr.dataSectors, disk
    {
      FileBytes(disk.image, hdr.Value())
    }

    constructor (disk: SynchDisk, sector: int)
      requires 0 <= sector < NUM_SECTORS
      ensures this.disk == disk && hdrSector == sector && seekPosition == 0
      ensures fresh(hdr) && fresh(hdr.dataSectors) && hdr.Valid()
      ensures hdr.Value() == DecodeHeader(disk.image[sector])
    {
      this.disk := disk;
      hdrSector := sector;
      var h := new FileHeader();
      h.FetchFrom(disk, sector);
      hdr := h;
      seekPosition := 0;
    }

    /** Copy up to `numBytes` bytes from `position` on into `into`, starting at index `at`. */
    method ReadAt(into: array<byte>, at: nat, numBytes: int, position: nat) returns (result: nat)
      requires Valid() && at + Clip(Length(hdr.Value()), numBytes, position) <= into.Length
      modifies into
      ensures result == Clip(Length(hdr.Value()), numBytes, position)
      ensures result == 0 ==> into[..] == old(into[..])
      ensures result > 0 ==>
        into[..] == old(into[..at]) + Contents()[position..position + result] + old(into[at + result..])
    {
      var fileLength := hdr.numBytes;
      if numBytes <= 0 || position >= fileLength {
        return 0;
      }
      var n := if position + numBytes > fileLength then fileLength - position else numBytes;
      var firstSector := position / SECTOR_SIZE;
      var lastSector := (position + n - 1) / SECTOR_SIZE;
      var buf := ReadSectors(firstSector, lastSector);
      var skip := position - firstSector * SECTOR_SIZE;
      assert buf[skip..skip + n] == Contents()[position..position + n];
      Bcopy(buf[skip..skip + n], into, at);
      return n;
    }

    /** Read sectors `firstSector` to `lastSector` of the file into one buffer. */
    method ReadSectors(firstSector: nat, lastSector: nat) returns (buf: array<byte>)
      requires Valid() && firstSector <= lastSector < hdr.numSectors
      ensures fresh(buf) && buf.Length == (1 + lastSector - firstSector) * SECTOR_SIZE
      ensures Agrees(buf[..], firstSector * SECTOR_SIZE, Contents(), firstSector * SECTOR_SIZE, (lastSector + 1) * SECTOR_SIZE)
    {
      hide FileBytes, DataBlocks;
      buf := new byte[(1 + lastSector - firstSector) * SECTOR_SIZE];
      ghost var base := firstSector * SECTOR_SIZE;
      var i := firstSector;
      while i <= lastSector
        invariant firstSector <= i <= lastSector + 1
        invariant Agrees(buf[..], base, Contents(), base, i * SECTOR_SIZE)
      {
        ghost var before := buf[..];
        var sector := hdr.ByteToSector(disk, i * SECTOR_SIZE);
        disk.ReadSector(sector, buf, (i - firstSector) * SECTOR_SIZE);
        OneSectorRead(before, buf[..], base, disk.image, hdr.Value(), i);
        i := i + 1;
      }
    }

    /** Store `from[..numBytes]`, cut to the file's length, at `position`. */
    method WriteAt(from: seq<byte>, numBytes: int, position: nat) returns (result: nat)
      requires Valid() && numBytes <= |from|
      modifies disk
      ensures result == Clip(Length(hdr.Value()), numBytes, position)
      ensures result == 0 ==> disk.image == old(disk.image)
      ensures result > 0 ==> Wrote(old(disk.image), disk.image, hdr.Value(), position, from[..result])
    {
      hide FileBytes, Splice, Agrees, Stored, DataBlocks;
      var fileLength := hdr.numBytes;
      if numBytes <= 0 || position >= fileLength {
        return 0;
      }
      var n := if position + numBytes > fileLength then fileLength - position else numBytes;
      var firstSector := position / SECTOR_SIZE;
      var lastSector := (position + n - 1) / SECTOR_SIZE;
      var buf := ReadEdges(firstSector, lastSector, position, n);
      ghost var edges := buf[..];
      Bcopy(from[..n], buf, position - firstSector * SECTOR_SIZE);
      Overlaid(edges, buf[..], firstSector * SECTOR_SIZE, Contents(), position, from[..n]);
      WriteSectors(buf, firstSector, lastSector);
      StoredSplice(disk.image, old(disk.image), hdr.Value(), buf[..], firstSector * SECTOR_SIZE, position, from[..n]);
      return n;
    }

    /** A buffer for the sectors a write touches, with the first and the last one read
        in when they are only partly overwritten. */
    method ReadEdges(firstSector: nat, lastSector: nat, position: nat, n: nat) returns (buf: array<byte>)
      requires Valid() && n > 0 && position + n <= Length(hdr.Value())
      requires firstSector <= lastSector
      requires firstSector * SECTOR_SIZE <= position < (firstSector + 1) * SECTOR_SIZE
      requires lastSector * SECTOR_SIZE < position + n <= (lastSector + 1) * SECTOR_SIZE
      ensures fresh(buf) && buf.Length == (1 + lastSector - firstSector) * SECTOR_SIZE
      ensures Agrees(buf[..], firstSector * SECTOR_SIZE, Contents(), firstSector * SECTOR_SIZE, position)
      ensures Agrees(buf[..], firstSector * SECTOR_SIZE, Contents(), position + n, (lastSector + 1) * SECTOR_SIZE)
    {
      buf := new byte[(1 + lastSector - firstSector) * SECTOR_SIZE];
      var firstAligned := position == firstSector * SECTOR_SIZE;
      var lastAligned := position + n == (lastSector + 1) * SECTOR_SIZE;
      ghost var base := firstSector * SECTOR_SIZE;
      if !firstAligned {
        ReadEdge(buf, firstSector, firstSector, base, base);
      }
      if !lastAligned && (firstSector != lastSector || firstAligned) {
        ReadEdge(buf, firstSector, lastSector, base, if firstAligned then base else position);
      }
    }

    /** Read file sector `sector` into its place in a buffer that starts at `firstSector`. */
    method ReadEdge(buf: array<byte>, firstSector: nat, sector: nat, ghost from: int, ghost to: int)
      requires Valid() && firstSector <= sector && sector * SECTOR_SIZE < Length(hdr.Value())
      requires (1 + sector - firstSector) * SECTOR_SIZE <= buf.Length
      requires Agrees(buf[..], firstSector * SECTOR_SIZE, Contents(), from, to) && to <= sector * SECTOR_SIZE
      modifies buf
      ensures Agrees(buf[..], firstSector * SECTOR_SIZE, Contents(), sector * SECTOR_SIZE, (sector + 1) * SECTOR_SIZE)
      ensures Agrees(buf[..], firstSector * SECTOR_SIZE, Contents(), from, to)
    {
      hide FileBytes, Agrees;
      ghost var before := buf[..];
      var at := (sector - firstSector) * SECTOR_SIZE;
      var r := ReadAt(buf, at, SECTOR_SIZE, sector * SECTOR_SIZE);
      EdgeRead(before, buf[..], at, firstSector * SECTOR_SIZE, Contents(), from, to);
    }

    /** Write `buf` over sectors `firstSector` to `lastSector` of the file. */
    method WriteSectors(buf: array<byte>, firstSector: nat, lastSector: nat)
      requires Valid() && firstSector <= lastSector < hdr.numSectors
      requires buf.Length == (1 + lastSector - firstSector) * SECTOR_SIZE
      modifies disk
      ensures forall s :: 0 <= s < NUM_SECTORS && s !in DataBlocks(hdr.Value()) ==> disk.image[s] == old(disk.image)[s]
      ensures Stored(disk.image, old(disk.image), hdr.Value(), buf[..], firstSector * SECTOR_SIZE, (lastSector + 1) * SECTOR_SIZE)
    {
      ghost var h := hdr.Value();
      ghost var base := firstSector * SECTOR_SIZE;
      var i := firstSector;
      while i <= lastSector
        invariant firstSector <= i <= lastSector + 1
        invariant forall s :: 0 <= s < NUM_SECTORS && s !in DataBlocks(h) ==> disk.image[s] == old(disk.image)[s]
        invariant Stored(disk.image, old(disk.image), h, buf[..], base, i * SECTOR_SIZE)
      {
        ghost var before := disk.image;
        var sector := hdr.ByteToSector(disk, i * SECTOR_SIZE);
        disk.WriteSector(sector, buf, (i - firstSector) * SECTOR_SIZE);
        assert sector == DataBlocks(h)[i];
        OneSectorWritten(before, disk.image, old(disk.image), h, buf[..], base, i);
        i := i + 1;
      }
    }

    method Seek(position: int)
      modifies this`seekPosition
      ensures seekPosition == position
    {
      seekPosition := position;
    }

    /** Read from the current position on, and move it.  The access time is stored in
        the header sector as a side effect; `now` is the current date. */
    method Read(into: array<byte>, numBytes: int, now: Stamp) returns (result: nat)
      requires Valid() && seekPosition >= 0 && HeaderApart()
      requires Clip(Length(hdr.Value()), numBytes, seekPosition) <= into.Length
      modifies into, this`seekPosition, hdr`accessTime, disk
      ensures Valid() && HeaderApart() && Contents() == old(Contents())
      ensures result == Clip(|Contents()|, numBytes, old(seekPosition))
      ensures (into[..result], seekPosition) == Take(Contents(), old(seekPosition), numBytes)
      ensures OnlyHeader(old(disk.image), disk.image, now)
    {
      hide FileBytes, DataBlocks, Good, NoDup, EncodeHeader;
      result := ReadAt(into, 0, numBytes, seekPosition);
      TakenAt(Contents(), old(into[..]), into[..], numBytes, seekPosition);
      assert into[..result] == into[..][..result];
      seekPosition := seekPosition + result;
      Touch(now);
    }

    method Write(from: seq<byte>, numBytes: int, now: Stamp) returns (result: nat)
      requires Valid() && seekPosition >= 0 && HeaderApart() && numBytes <= |from|
      modifies this`seekPosition, hdr`accessTime, disk
      ensures Valid() && HeaderApart()
      ensures result == Clip(|Contents()|, numBytes, old(seekPosition))
      ensures (Contents(), seekPosition) ==
        Put(old(Contents()), old(seekPosition), from[..if numBytes < 0 then 0 else numBytes])
      ensures exists mid: Image ::
        && OnlyHeader(mid, disk.image, now)
        && (result == 0 ==> mid == old(disk.image))
        && (result > 0 ==> Wrote(old(disk.image), mid, old(hdr.Value()), old(seekPosition), from[..result]))
    {
      hide FileBytes, DataBlocks, Good, NoDup, EncodeHeader;
      result := WriteAt(from, numBytes, seekPosition);
      assert numBytes >= 0 ==> from[..numBytes][..result] == from[..result];
      seekPosition := seekPosition + result;
      ghost var mid := disk.image;
      Touch(now);
      assert OnlyHeader(mid, disk.image, now);
    }

    /** The header sector exists and is not one of the file's data blocks. */
    ghost predicate HeaderApart()
      requires Valid()
      reads hdr, hdr.dataSectors
    {
      0 <= hdrSector < NUM_SECTORS && hdrSector !in DataBlocks(hdr.Value())
    }

    /** `d'` is `d` with this file's header, as it now is in memory, in its sector. */
    ghost predicate OnlyHeader(d: Image, d': Image, now: Stamp)
      requires 0 <= hdrSector < NUM_SECTORS
      reads hdr, hdr.dataSectors
    {
      && hdr.Valid() && hdr.accessTime == now
      && d' == d[hdrSector := EncodeHeader(hdr.Value())]
    }

    method Touch(now: Stamp)
      requires Valid() && HeaderApart()
      modifies hdr`accessTime, disk
      ensures Valid() && HeaderApart() && hdr.Value() == old(hdr.Value()).(accessed := now)
      ensures Contents() == old(Contents()) && OnlyHeader(old(disk.image), disk.image, now)
    {
      hdr.accessTime := now;
      hdr.WriteBack(disk, hdrSector);
      HeaderWriteKeeps(old(disk.image), old(hdr.Value()), hdrSector, now, disk.image[hdrSector]);
    }
  }

  /** One sequential write: the file and the position after it */
  function Put(s: seq<byte>, position: nat, data: seq<byte>): (r: (seq<byte>, nat))
    ensures |r.0| == |s|
  {
    var n := Clip(|s|, |data|, position);
    (if n == 0 then s else Splice(s, position, data[..n]), position + n)
  }

  /** One sequential read: the bytes read and the position after it */
  function Take(s: seq<byte>, position: nat, numBytes: int): (seq<byte>, nat) {
    var n := Clip(|s|, numBytes, position);
    (if n == 0 then [] else s[position..position + n], position + n)
  }

  function PutAll(s: seq<byte>, position: nat, chunks: seq<seq<byte>>): (seq<byte>, nat)
    decreases |chunks|
  {
    if chunks == [] then (s, position)
    else var (s', position') := Put(s, position, chunks[0]); PutAll(s', position', chunks[1..])
  }

  function TakeAll(s: seq<byte>, position: nat, sizes: seq<int>): seq<byte>
    decreases |sizes|
  {
    if sizes == [] then []
    else var (data, position') := Take(s, position, sizes[0]); data + TakeAll(s, position', sizes[1..])
  }

  function Flatten(chunks: seq<seq<byte>>): seq<byte> {
    if chunks == [] then [] else chunks[0] + Flatten(chunks[1..])
  }

  function Total(sizes: seq<int>): nat {
    if sizes == [] then 0 else (if sizes[0] <= 0 then 0 else sizes[0]) + Total(sizes[1..])
  }

  lemma PutTwice(s: seq<byte>, position: nat, a: seq<byte>, b: seq<byte>)
    ensures var (s1, p1) := Put(s, position, a); Put(s1, p1, b) == Put(s, position, a + b)
  {
    var (s1, p1) := Put(s, position, a);
    var m, n := Clip(|s|, |a|, position), Clip(|s|, |b|, p1);
    if m < |a| {
      assert n == 0;
      assert (a + b)[..m] == a[..m];
    } else {
      assert (a + b)[..m + n] == a + b[..n];
      assert a[..m] == a;
      if m == 0 {
        assert a + b == b;
      } else if n > 0 {
        assert Splice(s1, p1, b[..n]) == Splice(s, position, a + b[..n]);
      } else {
        assert a + b[..n] == a;
      }
    }
  }

  lemma TakeTwice(s: seq<byte>, position: nat, a: int, b: nat)
    ensures var (data, p1) := Take(s, position, a);
      data + Take(s, p1, b).0 == Take(s, position, (if a <= 0 then 0 else a) + b).0
  {
  }

  /** A stream written in any chunks leaves the same file as the stream written at once. */
  lemma {:induction false} PutAllIsPut(s: seq<byte>, position: nat, chunks: seq<seq<byte>>)
    ensures PutAll(s, position, chunks) == Put(s, position, Flatten(chunks))
    decreases |chunks|
  {
    if chunks != [] {
      var (s', position') := Put(s, position, chunks[0]);
      PutAllIsPut(s', position', chunks[1..]);
      PutTwice(s, position, chunks[0], Flatten(chunks[1..]));
    }
  }

  /** A file read in any sizes yields the same stream as one read of their total. */
  lemma {:induction false} TakeAllIsTake(s: seq<byte>, position: nat, sizes: seq<int>)
    ensures TakeAll(s, position, sizes) == Take(s, position, Total(sizes)).0
    decreases |sizes|
  {
    if sizes != [] {
      var (data, position') := Take(s, position, sizes[0]);
      TakeAllIsTake(s, position', sizes[1..]);
      TakeTwice(s, position, sizes[0], Total(sizes[1..]));
    }
  }

  /** Written under one chunking and read back under another, the stream is the same. */
  lemma WriteThenRead(s: seq<byte>, position: nat, chunks: seq<seq<byte>>, sizes: seq<int>)
    requires position + |Flatten(chunks)| <= |s| && Total(sizes) == |Flatten(chunks)|
    ensures TakeAll(PutAll(s, position, chunks).0, position, sizes) == Flatten(chunks)
  {
    PutAllIsPut(s, position, chunks);
    TakeAllIsTake(PutAll(s, position, chunks).0, position, sizes);
    var data := Flatten(chunks);
    assert data[..|data|] == data;
  }
}
