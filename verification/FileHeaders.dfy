/** filesys/filehdr.cc: the on-disk file header (i-node). */
module FileHeaders {
  import opened Bytes
  import opened BitMaps
  import opened DiskImages

  const DATE_LENGTH := 20
  const NUM_FIRST := 1
  const NUM_DIRECT := 14
  const DIRECT_BYTES := NUM_DIRECT * SECTOR_SIZE

  type Stamp = s: seq<byte> | |s| == DATE_LENGTH witness seq(DATE_LENGTH, _ => 0)

  const NO_DATE: Stamp := seq(DATE_LENGTH, _ => 0)

  /** What one header sector holds */
  datatype Inode = Inode(
    numBytes: int32, numSectors: int32,
    created: Stamp, updated: Stamp, accessed: Stamp,
    sectors: seq<int32>)

  /** C's divRoundUp on int: division and remainder truncate toward zero. */
  function DivRoundUp(n: int, s: nat): int
    requires s > 0
  {
    if n >= 0 then n / s + (if n % s > 0 then 1 else 0) else -((-n) / s)
  }

  /** A header as Allocate leaves it, for files within the direct range */
  predicate Good(h: Inode) {
    && |h.sectors| == NUM_DIRECT + NUM_FIRST
    && h.numSectors == DivRoundUp(h.numBytes, SECTOR_SIZE)
    && 0 <= h.numSectors <= NUM_DIRECT
    && forall i :: 0 <= i < h.numSectors ==> 0 <= h.sectors[i] < NUM_SECTORS
  }

  function DataBlocks(h: Inode): seq<int>
    requires Good(h)
  {
    h.sectors[..h.numSectors]
  }

  function EncodeHeader(h: Inode): Sector
    requires |h.sectors| == NUM_DIRECT + NUM_FIRST
  {
    EncodeInts([h.numBytes, h.numSectors]) + h.created + h.updated + h.accessed + EncodeInts(h.sectors)
  }

  function DecodeHeader(s: Sector): Inode {
    var counts := DecodeInts(s[..8]);
    Inode(counts[0], counts[1], s[8..28], s[28..48], s[48..68], DecodeInts(s[68..]))
  }

  /** FetchFrom after WriteBack gives back the same header. */
  lemma HeaderRoundTrip(h: Inode)
    requires |h.sectors| == NUM_DIRECT + NUM_FIRST
    ensures DecodeHeader(EncodeHeader(h)) == h
  {
    var s := EncodeHeader(h);
    var counts := [h.numBytes, h.numSectors];
    assert s[..8] == EncodeInts(counts);
    assert s[8..28] == h.created;
    assert s[28..48] == h.updated;
    assert s[48..68] == h.accessed;
    assert s[68..] == EncodeInts(h.sectors);
    IntsRoundTrip(counts);
    IntsRoundTrip(h.sectors);
  }

  ghost predicate NoDup(s: seq<int>) {
    forall i, j :: 0 <= i < j < |s| ==> s[i] != s[j]
  }

  /** `blocks` are the lowest clear bits of `before`, in order, and `after` has them marked as well. */
  ghost predicate TakesLowest(before: seq<bool>, blocks: seq<int>, after: seq<bool>) {
    && |after| == |before|
    && (forall i, j :: 0 <= i < j < |blocks| ==> blocks[i] < blocks[j])
    && (forall b :: b in blocks ==> 0 <= b < |before| && !before[b])
    && (forall i :: 0 <= i < |before| ==> (after[i] <==> before[i] || i in blocks))
    && (forall b, i :: b in blocks && 0 <= i < b ==> after[i])
  }

  lemma TakesBasics(before: seq<bool>, blocks: seq<int>, after: seq<bool>)
    ensures TakesLowest(before, [], before)
    ensures TakesLowest(before, blocks, after) ==> forall b :: b in blocks ==> 0 <= b < |before|
  {
  }

  lemma TakeOneMore(before: seq<bool>, blocks: seq<int>, after: seq<bool>, b: int)
    requires TakesLowest(before, blocks, after)
    requires b != -1 && IsFirstClear(after, b)
    ensures TakesLowest(before, blocks + [b], after[b := true])
  {
    var more, marked := blocks + [b], after[b := true];
    assert forall x :: x in more <==> x in blocks || x == b;
    forall x | x in blocks ensures x < b {
      if b < x {
        assert false;
      }
    }
    forall x, i | x in more && 0 <= i < x ensures marked[i] {
      assert x in blocks ==> after[i];
    }
    forall i, j | 0 <= i < j < |more| ensures more[i] < more[j] {
      assert more[i] in blocks;
    }
  }

  const INDEX_ENTRIES := SECTOR_SIZE / 4

  function Locate(h: Inode, d: Image, offset: nat): int
    requires |h.sectors| == NUM_DIRECT + NUM_FIRST
    requires offset < DIRECT_BYTES + INDEX_ENTRIES * SECTOR_SIZE
    requires offset > DIRECT_BYTES ==> 0 <= h.sectors[NUM_DIRECT] < NUM_SECTORS
  {
    if offset <= DIRECT_BYTES then h.sectors[offset / SECTOR_SIZE]
    else SignedChar(d[h.sectors[NUM_DIRECT]][(offset - DIRECT_BYTES) / SECTOR_SIZE * 4])
  }

  /** A file whose blocks past the direct ones are listed in an index sector:
      `blocks` are all of its data blocks in order. */
  ghost predicate Indexed(h: Inode, d: Image, blocks: seq<int32>) {
    && |h.sectors| == NUM_DIRECT + NUM_FIRST
    && NUM_DIRECT < |blocks| <= NUM_DIRECT + INDEX_ENTRIES
    && (forall b :: b in blocks ==> 0 <= b < NUM_SECTORS)
    && blocks[..NUM_DIRECT] == h.sectors[..NUM_DIRECT]
    && 0 <= h.sectors[NUM_DIRECT] < NUM_SECTORS && h.sectors[NUM_DIRECT] !in blocks
    && EncodeInts(blocks[NUM_DIRECT..]) <= d[h.sectors[NUM_DIRECT]]
  }

  /** Past the direct range the lookup answers the right block exactly when the offset
      is not the first one of the indexed range and the block number is below 128. */
  lemma LocateExact(h: Inode, d: Image, blocks: seq<int32>, offset: nat)
    requires Indexed(h, d, blocks) && offset < |blocks| * SECTOR_SIZE
    ensures Locate(h, d, offset) == blocks[offset / SECTOR_SIZE] <==>
      offset < DIRECT_BYTES || (offset > DIRECT_BYTES && blocks[offset / SECTOR_SIZE] < 128)
  {
    var k := offset / SECTOR_SIZE;
    if offset < DIRECT_BYTES {
      assert blocks[..NUM_DIRECT][k] == h.sectors[..NUM_DIRECT][k];
    } else if offset > DIRECT_BYTES {
      var pos := (offset - DIRECT_BYTES) / SECTOR_SIZE;
      var low := EncodeInts(blocks[NUM_DIRECT..])[4 * pos];
      assert low == ByteOf(ToWord(blocks[NUM_DIRECT..][pos]), 0);
      assert blocks[k] in blocks;
    }
  }

  /** A 2048-byte file allocated when sector 121 is the lowest clear one and the next are clear:
      fourteen direct blocks, index sector 135, and two more blocks.  Byte 1792 is looked up in
      the index sector itself, and block 137 is answered as -119. */
  lemma LocateFails(h: Inode, d: Image, blocks: seq<int32>)
    requires h.numBytes == 2048 && h.numSectors == 16
    requires blocks == [121, 122, 123, 124, 125, 126, 127, 128, 129, 130, 131, 132, 133, 134, 136, 137]
    requires h.sectors == [121, 122, 123, 124, 125, 126, 127, 128, 129, 130, 131, 132, 133, 134, 135]
    requires EncodeInts([136, 137]) <= d[135]
    ensures Indexed(h, d, blocks)
    ensures Locate(h, d, 1792) == 135 && Locate(h, d, 1920) == -119
  {
    assert blocks[NUM_DIRECT..] == [136, 137];
    var low := EncodeInts([136, 137])[4];
    assert d[135][4] == low == ByteOf(ToWord(137), 0);
  }

  class FileHeader {
    var numBytes: int32
    var numSectors: int32
    var createTime: Stamp
    var updateTime: Stamp
    var accessTime: Stamp
    const dataSectors: array<int32>

    ghost predicate Valid() {
      dataSectors.Length == NUM_DIRECT + NUM_FIRST
    }

    ghost function Value(): Inode
      reads this, dataSectors
    {
      Inode(numBytes, numSectors, createTime, updateTime, accessTime, dataSectors[..])
    }

    constructor ()
      ensures Valid() && fresh(dataSectors)
    {
      createTime, updateTime, accessTime := NO_DATE, NO_DATE, NO_DATE;
      dataSectors := new int32[NUM_DIRECT + NUM_FIRST];
    }

    /** Take data blocks for a file of `fileSize` bytes out of `freeMap`.
        `now` is the current date. */
    method Allocate(freeMap: BitMap, fileSize: int32, now: Stamp) returns (ok: bool)
      requires Valid() && freeMap.Valid() && freeMap.numBits == NUM_SECTORS
      requires -SECTOR_SIZE < fileSize <= DIRECT_BYTES
      modifies this, dataSectors, freeMap.words
      ensures ok <==> DivRoundUp(fileSize, SECTOR_SIZE) <= CountClear(old(freeMap.Contents()))
      ensures !ok ==> freeMap.Contents() == old(freeMap.Contents())
      ensures ok ==> Good(Value()) && Value().numBytes == fileSize && createTime == now
      ensures ok ==> TakesLowest(old(freeMap.Contents()), DataBlocks(Value()), freeMap.Contents())
      ensures updateTime == old(updateTime) && accessTime == old(accessTime)
    {
      hide TakesLowest, Unpack;
      numBytes := fileSize;
      numSectors := DivRoundUp(fileSize, SECTOR_SIZE);
      var clear := freeMap.NumClear();
      if clear < numSectors {
        return false;
      }
      var needDirect := if numSectors > NUM_DIRECT then NUM_DIRECT else numSectors;
      ghost var before := freeMap.Contents();
      TakesBasics(before, [], before);
      var i := 0;
      assert dataSectors[..i] == [];
      while i < needDirect
        invariant 0 <= i <= needDirect
        invariant TakesLowest(before, dataSectors[..i], freeMap.Contents())
        invariant CountClear(freeMap.Contents()) == clear - i
        invariant numBytes == fileSize && numSectors == DivRoundUp(fileSize, SECTOR_SIZE)
        invariant updateTime == old(updateTime) && accessTime == old(accessTime)
      {
        ghost var mid := freeMap.Contents();
        CountClearZero(mid);
        var free := freeMap.Find();
        CountClearUpdate(mid, free, true);
        dataSectors[i] := free;
        assert dataSectors[..i + 1] == dataSectors[..i] + [free];
        TakeOneMore(before, dataSectors[..i], mid, free);
        i := i + 1;
      }
      createTime := now;
      TakesBasics(before, dataSectors[..needDirect], freeMap.Contents());
      assert forall k :: 0 <= k < needDirect ==> dataSectors[k] in dataSectors[..needDirect];
      return true;
    }

    /** Give every data block back to `freeMap`. */
    method Deallocate(freeMap: BitMap)
      requires Valid() && Good(Value()) && NoDup(DataBlocks(Value()))
      requires freeMap.Valid() && freeMap.numBits == NUM_SECTORS
      requires forall b :: b in DataBlocks(Value()) ==> freeMap.Contents()[b]
      modifies freeMap.words
      ensures forall i :: 0 <= i < NUM_SECTORS ==>
        (freeMap.Contents()[i] <==> old(freeMap.Contents())[i] && i !in DataBlocks(Value()))
    {
      var needDirect := if numSectors > NUM_DIRECT then NUM_DIRECT else numSectors;
      ghost var blocks := DataBlocks(Value());
      var i := 0;
      while i < needDirect
        invariant 0 <= i <= |blocks| && Value() == old(Value())
        invariant forall k :: 0 <= k < NUM_SECTORS ==>
          (freeMap.Contents()[k] <==> old(freeMap.Contents())[k] && k !in blocks[..i])
      {
        var marked := freeMap.Test(dataSectors[i]);
        assert marked by {
          assert blocks[i] !in blocks[..i];
        }
        freeMap.Clear(dataSectors[i]);
        assert blocks[..i + 1] == blocks[..i] + [dataSectors[i]];
        i := i + 1;
      }
      assert blocks[..i] == blocks;
    }

    /** The sector that stores byte `offset` of the file.  The bound is `<=`, and an
        index entry is read through a single signed char, as in the source. */
    method ByteToSector(disk: SynchDisk, offset: nat) returns (sector: int)
      requires Valid() && offset < DIRECT_BYTES + INDEX_ENTRIES * SECTOR_SIZE
      requires offset > DIRECT_BYTES ==> 0 <= dataSectors[NUM_DIRECT] < NUM_SECTORS
      ensures sector == Locate(Value(), disk.image, offset)
    {
      if offset <= DIRECT_BYTES {
        return dataSectors[offset / SECTOR_SIZE];
      }
      var pos := (offset - DIRECT_BYTES) / SECTOR_SIZE;
      var directFirst := new byte[SECTOR_SIZE];
      disk.ReadSector(dataSectors[NUM_DIRECT], directFirst, 0);
      assert directFirst[..SECTOR_SIZE][pos * 4] == directFirst[pos * 4];
      return SignedChar(directFirst[pos * 4]);
    }

    method FetchFrom(disk: SynchDisk, sector: int)
      requires Valid() && 0 <= sector < NUM_SECTORS
      modifies this, dataSectors
      ensures Value() == DecodeHeader(disk.image[sector])
    {
      var h := DecodeHeader(disk.image[sector]);
      numBytes, numSectors := h.numBytes, h.numSectors;
      createTime, updateTime, accessTime := h.created, h.updated, h.accessed;
      for i := 0 to dataSectors.Length
        invariant forall k :: 0 <= k < i ==> dataSectors[k] == h.sectors[k]
        invariant numBytes == h.numBytes && numSectors == h.numSectors
        invariant createTime == h.created && updateTime == h.updated && accessTime == h.accessed
      {
        dataSectors[i] := h.sectors[i];
      }
    }

    method WriteBack(disk: SynchDisk, sector: int)
      requires Valid() && 0 <= sector < NUM_SECTORS
      modifies disk
      ensures disk.image == old(disk.image)[sector := EncodeHeader(Value())]
      ensures DecodeHeader(disk.image[sector]) == Value()
    {
      var bytes := EncodeHeader(Inode(numBytes, numSectors, createTime, updateTime, accessTime, dataSectors[..]));
      disk.image := disk.image[sector := bytes];
      HeaderRoundTrip(Value());
    }
  }
}
