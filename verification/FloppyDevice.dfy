/** The drive as the emulator has it: one object whose fields and two arrays its methods update. */
module FloppyDevice {
  import opened Bytes
  import opened Floppy
  import opened FloppyRuns

  class FloppyDrive {
    const disk: array<byte>
    const buffer: array<byte>
    var track: nat
    var sector: nat
    var targetTrack: nat
    var targetSector: nat
    var sectorOffset: nat
    var diskOffset: nat
    var seekTime: int
    var seekOngoing: bool
    var status: Status
    var media: Media
    var side: nat
    var error: byte
    var doIrq: bool

    ghost function State(): Drive
      reads this, disk, buffer
    {
      Drive(disk[..], buffer[..], track, sector, targetTrack, targetSector, sectorOffset, diskOffset,
            seekTime, seekOngoing, status, media, side, error, doIrq)
    }

    ghost predicate Valid()
      reads this, disk, buffer
    {
      disk != buffer && Inv(State())
    }

    constructor ()
      ensures Valid() && fresh(disk) && fresh(buffer)
      ensures State() == PowerOn()
    {
      disk := new byte[UD_SIZE](_ => 0);
      buffer := new byte[UD_SIZE](_ => 0);
      track, sector, targetTrack, targetSector, sectorOffset, diskOffset := 0, 0, 0, 0, 0, 0;
      seekTime, seekOngoing, status, media := 0, false, Ready, NoDisk;
      side, error, doIrq := 0, ERROR_NONE, false;
      new;
      assert disk[..] == Zeros(UD_SIZE) && buffer[..] == Zeros(UD_SIZE);
    }

    method RaiseErrorCode(e: byte)
      modifies this`status, this`error
      ensures State() == RaiseError(old(State()), e)
    {
      status := Error;
      error := e;
    }

    method AcknowledgeError()
      modifies this`status, this`error
      ensures State() == ClearError(old(State()))
    {
      if status == Error {
        status := Ready;
        error := ERROR_NONE;
      }
    }

    method FetchSector()
      requires Valid() && media != NoDisk && SectorOnDisk(State())
      modifies this, buffer
      ensures State() == ReadSector(old(State()))
    {
      forall i | 0 <= i < SECTOR {
        buffer[i] := disk[diskOffset + i];
      }
      assert buffer[..] == Splice(old(buffer[..]), 0, SectorData(old(State())));
      targetSector := (targetSector + 1) % SectorCount(media);
      sector := targetSector;
      sectorOffset := 0;
    }

    method StoreSector()
      requires Valid() && media != NoDisk && SectorOnDisk(State())
      modifies this, disk
      ensures State() == WriteSector(old(State()))
    {
      forall i | 0 <= i < SECTOR {
        disk[diskOffset + i] := buffer[i];
      }
      assert disk[..] == Splice(old(disk[..]), diskOffset, buffer[..SECTOR]);
      status := DiskWrite;
      seekOngoing := true;
      seekTime := SectorRwTime(SectorCount(media));
    }

    method FinishSeek()
      requires Valid()
      modifies this, buffer
      ensures Valid() && State() == SeekDone(old(State()))
    {
      match status {
        case DiskWrite =>
          targetSector := (targetSector + 1) % SectorCount(media);
          status := Ready;
        case Seek =>
          status := Ready;
        case SeekRead =>
          FetchSector();
          status := Reading;
        case SeekWrite =>
          status := Writing;
        case _ =>
      }
      sector := targetSector;
      track := targetTrack;
    }

    method BeginSeek(write: bool)
      requires Valid()
      modifies this
      ensures State() == SeekTo(old(State()), write) && Valid()
    {
      hide SeekTimeToTrack, SeekTimeToSector, SectorOffset, Inv;
      var wanted := targetTrack % 128;
      side := targetTrack / 128;
      if Busy(status) {
        RaiseErrorCode(ERROR_BUSY);
        return;
      }
      if media == NoDisk {
        RaiseErrorCode(ERROR_NO_DISK);
        return;
      }
      if write && WriteProtected(media) {
        RaiseErrorCode(ERROR_FAIL_WRITE);
        return;
      }
      if wanted >= TRACKS {
        RaiseErrorCode(ERROR_FAIL_SEEK);
        return;
      }
      if targetSector >= SectorCount(media) {
        RaiseErrorCode(ERROR_FAIL_SEEK);
        return;
      }
      diskOffset := SectorOffset(side, wanted, targetSector, SectorCount(media));
      seekOngoing := true;
      seekTime := SeekTimeToTrack(track, wanted);
      seekTime := seekTime + SeekTimeToSector(sector, targetSector, SectorCount(media));
      sectorOffset := 0;
      status := Seek;
    }

    method SeekAndRead()
      requires Valid()
      modifies this, buffer
      ensures Valid() && State() == StartRead(old(State()))
    {
      hide SeekTo, SeekDone;
      BeginSeek(false);
      if status == Seek {
        status := SeekRead;
        seekOngoing := true;
        seekTime := seekTime + SectorRwTime(SectorCount(media));
        if seekTime <= 0 {
          FinishSeek();
        }
      }
    }

    method SeekAndWrite()
      requires Valid()
      modifies this, buffer
      ensures Valid() && State() == StartWrite(old(State()))
    {
      BeginSeek(true);
      if status == Seek {
        status := SeekWrite;
        if seekTime == 0 {
          FinishSeek();
        }
      }
    }

    method ControlPort(b: byte)
      requires Valid()
      modifies this, buffer
      ensures Valid() && State() == Control(old(State()), b)
    {
      hide SeekTo, SeekDone, StartRead, StartWrite;
      doIrq := b / 32 % 2 == 1;
      if b / 64 % 2 == 1 {
        AcknowledgeError();
      } else if status == Error {
        return;
      }
      match b % 4 {
        case 1 => SeekAndRead();
        case 2 => SeekAndWrite();
        case 3 =>
          BeginSeek(false);
          if status == Seek && seekTime <= 0 {
            FinishSeek();
          }
        case _ =>
      }
    }

    method NextByte() returns (v: byte)
      requires Valid()
      modifies this
      ensures Valid() && (State(), v) == ReadByte(old(State()))
    {
      if status != Reading { return 0; }
      v := buffer[sectorOffset];
      sectorOffset := sectorOffset + 1;
      if sectorOffset >= SECTOR {
        sectorOffset := 0;
        status := Ready;
      }
    }

    method AcceptByte(b: byte)
      requires Valid()
      modifies this, disk, buffer
      ensures Valid() && State() == WriteByte(old(State()), b)
    {
      if status != Writing { return; }
      buffer[sectorOffset] := b;
      sectorOffset := sectorOffset + 1;
      if sectorOffset >= SECTOR {
        sectorOffset := 0;
        StoreSector();
      }
    }

    /** Reads of the sector, track and data ports; the status port is not modelled. */
    method In(port: nat) returns (v: byte)
      requires Valid()
      modifies this
      ensures Valid() && (State(), v) == ReadPort(old(State()), port)
    {
      match port {
        case 1 => return targetSector;
        case 2 => return targetTrack;
        case 3 =>
          if status == Reading {
            v := NextByte();
            return;
          } else if status == Error {
            return error;
          }
        case _ =>
      }
      return 0xFF;
    }

    method Out(port: nat, data: byte)
      requires Valid()
      modifies this, disk, buffer
      ensures Valid() && State() == WritePort(old(State()), port, data)
    {
      match port {
        case 0 => ControlPort(data);
        case 1 => targetSector := data % 32;
        case 2 => targetTrack := data;
        case 3 =>
          if status == Writing {
            AcceptByte(data);
          }
        case _ =>
      }
    }

    method Elapse(ms: nat)
      requires Valid()
      modifies this, buffer
      ensures Valid() && State() == Tick(old(State()), ms)
    {
      if seekOngoing {
        seekTime := seekTime - ms;
        if seekTime <= 0 {
          seekTime := 0;
          FinishSeek();            // does not look at seekOngoing,
          seekOngoing := false;    // which the emulator clears one statement earlier
        }
      }
    }

    method Blank()
      requires Valid()
      modifies disk
      ensures Valid() && State() == old(State()).(disk := Zeros(UD_SIZE))
    {
      forall i | 0 <= i < UD_SIZE { disk[i] := 0; }
      assert disk[..] == Zeros(UD_SIZE);
    }

    method ReadIn(bytes: seq<byte>)
      requires Valid() && |bytes| <= UD_SIZE
      modifies disk
      ensures Valid() && State() == old(State()).(disk := Splice(old(State()).disk, 0, bytes))
    {
      forall i | 0 <= i < |bytes| { disk[i] := bytes[i]; }
      assert disk[..] == Splice(old(disk[..]), 0, bytes);
    }

    method Insert(file: seq<byte>, wp: bool, clear: bool) returns (failed: bool)
      requires Valid()
      modifies this, disk
      ensures Valid() && State() == Mount(old(State()), file, wp, clear)
      ensures InsertedFile(old(State()), State(), file, wp, clear)
      ensures failed <==> file == []
    {
      hide InsertedFile, MediaForSize, DiskGone, WriteProtected, SectorCount, DiskSize;
      MountInserts(State(), file, wp, clear);
      if status != Ready {
        RaiseErrorCode(ERROR_NO_DISK);
      }
      var size := if |file| <= UD_SIZE then |file| else UD_SIZE;
      if size < 1 {
        media := NoDisk;
        Blank();
        return true;
      }
      if clear {
        Blank();
      }
      assert |file| <= UD_SIZE ==> file[..size] == file;
      ReadIn(file[..size]);
      media := MediaForSize(size, wp);
      return false;
    }

    method Eject()
      requires Valid()
      modifies this, disk
      ensures Valid() && State() == Unmount(old(State()))
    {
      media := NoDisk;
      if status != Ready {
        RaiseErrorCode(ERROR_NO_DISK);
      }
      Blank();
    }

    method HardReset()
      requires Valid()
      modifies this
      ensures Valid() && State() == Reset(old(State()))
    {
      status := Ready;
      error := ERROR_NONE;
      doIrq := false;
      seekTime := 0;
      seekOngoing := false;
    }

    /** A read of the status port. */
    method StatusByte(stale: bv8) returns (s: bv8)
      requires Valid()
      ensures s == StatusPort(State(), stale)
    {
      s := stale;
      if status != Seek && status != SeekRead && status != SeekWrite && status != DiskWrite {
        s := s | 0x80;
      } else if status == Error {
        s := s | 0x40;
      }
      match media {
        case NoDisk =>
        case SD => s := s | 0x0C;
        case HD => s := s | 0x10;
        case UD => s := s | 0x14;
        case SDWP => s := s | 0x0E;
        case HDWP => s := s | 0x12;
        case UDWP => s := s | 0x16;
      }
      s := s | if doIrq then 0x20 else 0;
    }

    /** A poll with the two uninitialised bits that matter taken to be clear: it shows whether the drive
        is busy, and never an error. */
    method Poll() returns (s: bv8)
      requires Valid()
      ensures s & 0x40 == 0 && (s & 0x80 == 0 <==> Busy(status))
    {
      hide StatusPort;
      var stale: bv8 := *;
      stale := stale & 0x3F;
      s := StatusByte(stale);
      ErrorIsNeverShown(State(), stale);
    }

    /** Polling the status port until it shows an error or that the drive is not busy, a tick of any
        positive length between polls. An error never shows, not even when there is one. */
    method AwaitIdle(ms: nat) returns (failed: bool, ghost ds: seq<nat>)
      requires Valid() && ms > 0
      modifies this, buffer
      ensures Valid() && !failed && !Busy(status) && State() == Ticks(old(State()), ds)
    {
      ds := [];
      var s := Poll();
      while s & 0x40 == 0 && s & 0x80 == 0
        invariant Valid() && State() == Ticks(old(State()), ds)
        invariant s & 0x40 == 0 && (s & 0x80 == 0 <==> Busy(status))
        decreases Busy(status), seekTime
      {
        TicksThenTick(old(State()), ds, ms);
        Elapse(ms);
        ds := ds + [ms];
        s := Poll();
      }
      failed := s & 0x40 != 0;
    }
  }

  lemma {:induction false} TicksThenTick(d: Drive, ds: seq<nat>, ms: nat)
    requires Inv(d)
    ensures Ticks(d, ds + [ms]) == Tick(Ticks(d, ds), ms)
    decreases |ds|
  {
    if ds == [] {
      assert Ticks(Tick(d, ms), []) == Tick(d, ms);
      assert [] + [ms] == [ms];
    } else {
      assert (ds + [ms])[1..] == ds[1..] + [ms];
      TicksThenTick(Tick(d, ds[0]), ds[1..], ms);
    }
  }
}
