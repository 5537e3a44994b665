/** machine/disk.cc: the raw disk, one request at a time, and how long each request takes.

    Time is counted in ticks.  A sector takes ROTATION_TIME ticks to pass the head, so time
    is cut into slots: during slot `k`, from ROTATION_TIME * k on, the sectors whose offset
    within the track is `k` modulo SECTORS_PER_TRACK go by. */
module Disks {
  import opened Bytes
  import opened DiskImages

  const SECTORS_PER_TRACK := 32
  const NUM_TRACKS := 32
  const ROTATION_TIME := 500
  const SEEK_TIME := 500

  /** Slot `k` brings `sector` past the head */
  predicate Passes(k: int, sector: int) {
    k % SECTORS_PER_TRACK == sector % SECTORS_PER_TRACK
  }

  function Track(sector: nat): nat {
    sector / SECTORS_PER_TRACK
  }

  function SeekTicks(from: nat, to: nat): nat {
    (if Track(to) >= Track(from) then Track(to) - Track(from) else Track(from) - Track(to)) * SEEK_TIME
  }

  /** Sectors of rotational delay from offset `from` to offset `to` */
  function ModuloDiff(to: nat, from: nat): (r: nat)
    ensures r < SECTORS_PER_TRACK && Passes(from + r, to)
    ensures forall k :: from <= k < from + r ==> !Passes(k, to)
  {
    var toOffset := to % SECTORS_PER_TRACK;
    var fromOffset := from % SECTORS_PER_TRACK;
    var r := (toOffset - fromOffset + SECTORS_PER_TRACK) % SECTORS_PER_TRACK;
    assert forall k :: from <= k < from + r ==> !Passes(k, to) by {
      forall k | from <= k < from + r
        ensures !Passes(k, to)
      {
        NotYet(to, from, r, k);
      }
    }
    r
  }

  lemma NotYet(to: nat, from: nat, r: nat, k: int)
    requires r == (to % SECTORS_PER_TRACK - from % SECTORS_PER_TRACK + SECTORS_PER_TRACK) % SECTORS_PER_TRACK
    requires from <= k < from + r
    ensures !Passes(k, to)
  {
  }

  /** The transfer of `sector` ends at time `end`: it fills the last whole slot before
      `end`, with the head on the track since time `ready`, and no earlier slot would do. */
  ghost predicate FirstPass(sector: int, ready: int, end: int) {
    && end % ROTATION_TIME == 0
    && end - ROTATION_TIME >= ready
    && Passes(end / ROTATION_TIME - 1, sector)
    && forall k :: ready <= ROTATION_TIME * k && Passes(k, sector) ==> end <= ROTATION_TIME * (k + 1)
  }

  /** `sector` went completely past the head after time `since` and before `until` */
  ghost predicate WentBy(sector: int, since: int, until: int) {
    exists k :: Passes(k, sector) && since <= ROTATION_TIME * k && ROTATION_TIME * (k + 1) <= until
  }

  function NextBoundary(t: nat): (r: nat)
    ensures t <= r < t + ROTATION_TIME && r % ROTATION_TIME == 0
  {
    if t % ROTATION_TIME > 0 then t + (ROTATION_TIME - t % ROTATION_TIME) else t
  }

  lemma FirstPassAfter(sector: nat, ready: nat, end: nat)
    requires end == NextBoundary(ready)
      + ModuloDiff(sector, NextBoundary(ready) / ROTATION_TIME) * ROTATION_TIME + ROTATION_TIME
    ensures FirstPass(sector, ready, end)
  {
  }

  lemma BufferedIff(sector: nat, since: nat, until: nat)
    requires since % ROTATION_TIME == 0 && until % ROTATION_TIME == 0 && since <= until
    ensures (until - since) / ROTATION_TIME > ModuloDiff(sector, since / ROTATION_TIME) <==> WentBy(sector, since, until)
  {
  }

  /** Both branches of the latency computation */
  lemma LatencyParts(last: nat, since: nat, sector: nat, now: nat, seek: nat, timeAfter: nat)
    requires last < NUM_SECTORS && sector < NUM_SECTORS && since % ROTATION_TIME == 0 && since <= now
    requires seek == SeekTicks(last, sector) && timeAfter == NextBoundary(now + seek)
    ensures seek == 0 <==> Track(sector) == Track(last)
    ensures (timeAfter - since) / ROTATION_TIME > ModuloDiff(sector, since / ROTATION_TIME) <==> WentBy(sector, since, timeAfter)
    ensures FirstPass(sector, now + seek,
                      timeAfter + ModuloDiff(sector, timeAfter / ROTATION_TIME) * ROTATION_TIME + ROTATION_TIME)
    ensures timeAfter <= now + 15999
  {
    BufferedIff(sector, since, timeAfter);
    hide ModuloDiff, WentBy, NextBoundary;
    var delay := ModuloDiff(sector, timeAfter / ROTATION_TIME);
    FirstPassAfter(sector, now + seek, timeAfter + delay * ROTATION_TIME + ROTATION_TIME);
  }

  class Disk {
    var image: Image
    var lastSector: nat
    var bufferInit: nat
    var active: bool
    /** When the interrupt for the request in progress is due */
    ghost var due: int

    /** What holds at time `now` */
    ghost predicate Valid(now: int)
      reads this
    {
      && lastSector < NUM_SECTORS && bufferInit % ROTATION_TIME == 0
      && bufferInit <= (if active then due else now)
    }

    constructor (image: Image, now: nat)
      ensures Valid(now) && !active && this.image == image && lastSector == 0 && bufferInit == 0
    {
      this.image := image;
      lastSector, bufferInit, active, due := 0, 0, false, 0;
    }

    /** Ticks for the seek, and for the wait until the next sector boundary after it */
    function TimeToSeek(newSector: nat, now: nat): (r: (nat, nat))
      reads this
      ensures r.0 == SeekTicks(lastSector, newSector) && now + r.0 + r.1 == NextBoundary(now + r.0)
    {
      var newTrack := newSector / SECTORS_PER_TRACK;
      var oldTrack := lastSector / SECTORS_PER_TRACK;
      var seek := (if newTrack >= oldTrack then newTrack - oldTrack else oldTrack - newTrack) * SEEK_TIME;
      var over := (now + seek) % ROTATION_TIME;
      (seek, if over > 0 then ROTATION_TIME - over else 0)
    }

    /** The head is on the track and the track buffer holds the sector */
    ghost predicate Buffered(newSector: nat, now: nat)
      reads this
    {
      Track(newSector) == Track(lastSector) && WentBy(newSector, bufferInit, NextBoundary(now))
    }

    /** A read that the track buffer can serve takes one transfer; anything else waits for
        the first time the sector passes after the seek. */
    function ComputeLatency(newSector: nat, writing: bool, now: nat): (ticks: nat)
      requires Valid(now) && !active && newSector < NUM_SECTORS
      reads this
      ensures ROTATION_TIME <= ticks <= 31999
      ensures !writing && Buffered(newSector, now) ==> ticks == ROTATION_TIME
      ensures writing || !Buffered(newSector, now) ==>
        FirstPass(newSector, now + SeekTicks(lastSector, newSector), now + ticks)
    {
      var (seek, rotation) := TimeToSeek(newSector, now);
      var timeAfter := now + seek + rotation;
      LatencyParts(lastSector, bufferInit, newSector, now, seek, timeAfter);
      if !writing && seek == 0
         && (timeAfter - bufferInit) / ROTATION_TIME > ModuloDiff(newSector, bufferInit / ROTATION_TIME)
      then
        ROTATION_TIME
      else
        seek + (rotation + ModuloDiff(newSector, timeAfter / ROTATION_TIME) * ROTATION_TIME) + ROTATION_TIME
    }

    /** The track buffer starts afresh exactly when the head moved to another track. */
    method UpdateLast(newSector: nat, now: nat)
      modifies this`bufferInit, this`lastSector
      ensures lastSector == newSector
      ensures bufferInit == if Track(newSector) == Track(old(lastSector)) then old(bufferInit)
                            else NextBoundary(now + SeekTicks(old(lastSector), newSector))
    {
      var (seek, rotate) := TimeToSeek(newSector, now);
      if seek != 0 {
        bufferInit := now + seek + rotate;
      }
      lastSector := newSector;
    }

    /** The bytes are delivered at once; the interrupt comes `ticks` later. */
    method ReadRequest(sectorNumber: nat, data: array<byte>, at: nat, now: nat) returns (ticks: nat)
      requires Valid(now) && !active && sectorNumber < NUM_SECTORS && at + SECTOR_SIZE <= data.Length
      modifies this, data
      ensures Valid(now) && active && due == now + ticks && image == old(image) && lastSector == sectorNumber
      ensures ticks == old(ComputeLatency(sectorNumber, false, now))
      ensures data[..] == old(data[..at]) + image[sectorNumber] + old(data[at + SECTOR_SIZE..])
    {
      ticks := ComputeLatency(sectorNumber, false, now);
      Bcopy(image[sectorNumber], data, at);
      active := true;
      UpdateLast(sectorNumber, now);
      due := now + ticks;
    }

    method WriteRequest(sectorNumber: nat, data: array<byte>, at: nat, now: nat) returns (ticks: nat)
      requires Valid(now) && !active && sectorNumber < NUM_SECTORS && at + SECTOR_SIZE <= data.Length
      modifies this
      ensures Valid(now) && active && due == now + ticks && lastSector == sectorNumber
      ensures ticks == old(ComputeLatency(sectorNumber, true, now))
      ensures image == old(image)[sectorNumber := data[at..at + SECTOR_SIZE]]
    {
      ticks := ComputeLatency(sectorNumber, true, now);
      image := image[sectorNumber := data[at..at + SECTOR_SIZE]];
      active := true;
      UpdateLast(sectorNumber, now);
      due := now + ticks;
    }

    /** The disk's interrupt, which never comes before it is due */
    method HandleInterrupt(now: int)
      requires Valid(now) && active && due <= now
      modifies this`active
      ensures Valid(now) && !active
    {
      active := false;
    }
  }
}
