/** The disk as the file system sees it: numbered sectors of bytes.

    filesys/synchdisk.cc turns the asynchronous device into this synchronous
    view; module SynchDiskRuns is about that step. */
module DiskImages {
  import opened Bytes

  const SECTOR_SIZE := 128
  const NUM_SECTORS := 1024

  type Sector = s: seq<byte> | |s| == SECTOR_SIZE witness seq(SECTOR_SIZE, _ => 0)

  const ZERO_SECTOR: Sector := seq(SECTOR_SIZE, _ => 0)

  const ZERO_IMAGE: seq<Sector> := seq<Sector>(NUM_SECTORS, _ => ZERO_SECTOR)

  type Image = d: seq<Sector> | |d| == NUM_SECTORS
    witness ZERO_IMAGE

  /** C's bcopy: overwrite `dst` from index `at` on with `src`. */
  method Bcopy(src: seq<byte>, dst: array<byte>, at: nat)
    requires at + |src| <= dst.Length
    modifies dst
    ensures dst[..] == old(dst[..at]) + src + old(dst[at + |src|..])
  {
    for i := 0 to |src|
      invariant dst[..] == old(dst[..at]) + src[..i] + old(dst[at + i..])
    {
      dst[at + i] := src[i];
    }
  }

  class SynchDisk {
    var image: Image

    /** Copy sector `sectorNumber` into `data` from index `at` on. */
    method ReadSector(sectorNumber: int, data: array<byte>, at: nat)
      requires 0 <= sectorNumber < NUM_SECTORS && at + SECTOR_SIZE <= data.Length
      modifies data
      ensures data[..] == old(data[..at]) + image[sectorNumber] + old(data[at + SECTOR_SIZE..])
    {
      Bcopy(image[sectorNumber], data, at);
    }

    method WriteSector(sectorNumber: int, data: array<byte>, at: nat)
      requires 0 <= sectorNumber < NUM_SECTORS && at + SECTOR_SIZE <= data.Length
      modifies this
      ensures image == old(image)[sectorNumber := data[at..at + SECTOR_SIZE]]
    {
      image := image[sectorNumber := data[at..at + SECTOR_SIZE]];
    }
  }
}
