/** The disk routines of DOS: sector arithmetic by shift and subtract, the volume check, the chunk
    table kept in RAM, loading programs, and allocating and counting chunks. */
module Dos {
  import opened Bytes
  import opened Memory
  import opened Machine
  import opened SectorLoad
  import opened ChunkTable
  import opened Elfs
  import opened DiskRead
  import opened Division
  import Floppy
  import FloppyTransfer

  const CTABLE: word := 0xA000

  /** The master block and the whole chunk table of the volume are in RAM, and the machine is quiet
      with the disk in its drive. */
  predicate Paged(s: Sys, img: seq<byte>, id: MediaId) {
    && Quiet(s) && HasDisk(s, img, id) && Described(img, id)
    && MasterInRam(s, img, id) && TableInRam(s, img, id)
  }

  predicate TableInRam(s: Sys, img: seq<byte>, id: MediaId) {
    Ok(s) && Elfs.Sized(img, id) && Bank(s.mem, 0)[CTABLE..CTABLE + Base(id)] == TableBytes(img, id)
  }

  /** What the volume check demands of a master block. */
  predicate Acceptable(m: seq<byte>)
    requires |m| == 512
  {
    && WordAt(m, 0) == 0x4C45 && WordAt(m, 2) == 0x5346
    && WordAt(m, 0x10) == 0x000A
    && WordAt(m, 0x16) != 0
    && (1 <= WordAt(m, 0x08) < 3 ==> WordAt(m, 0x16) < 0x10)
    && WordAt(m, 0x38) % 2 == 0
    && WordAt(m, 0x18) == 2
    && WordAt(m, 0x12) / 256 + 1 < WordAt(m, 0x16)
    && WordAt(m, 0x14) != 0
  }

  /** What an accepted master block is good for: it is signed ELFS, its table has an entry for every chunk
      up to the highest and a sector more, on the two smaller media the table fits in 15 sectors, and
      sectors can be divided by its track size, unless that is $8000 chunks, which doubled is zero. */
  lemma AcceptedBlocks(m: seq<byte>)
    requires |m| == 512 && Acceptable(m)
    ensures m[..4] == [0x45, 0x4C, 0x46, 0x53]
    ensures WordAt(m, 0x12) as int + 256 < 256 * WordAt(m, 0x16) as int
    ensures WordAt(m, 0x08) == 1 || WordAt(m, 0x08) == 2 ==> CTABLE as int + 512 * WordAt(m, 0x16) as int <= 0xBE00
    ensures WordAt(m, 0x14) * 2 % 0x1_0000 == 0 <==> WordAt(m, 0x14) == 0x8000
  {
    SignatureBytes(m);
    var chunks: int := WordAt(m, 0x12);
    assert chunks < 256 * (chunks / 256 + 1);
    HalfWay(WordAt(m, 0x14));
  }

  lemma SignatureBytes(m: seq<byte>)
    requires |m| >= 4 && WordAt(m, 0) == 0x4C45 && WordAt(m, 2) == 0x5346
    ensures m[..4] == [0x45, 0x4C, 0x46, 0x53]
  {
  }

  lemma HalfWay(w: word)
    requires w != 0
    ensures w * 2 % 0x1_0000 == 0 <==> w == 0x8000
  {
  }

  /** The check turns away every 960 KB volume the volume writer makes, and accepts the other two
      sizes: the table of the small disk has exactly as many sectors as its chunks need, and the
      check wants one more. */
  lemma SmallDisksAreRefused(img: seq<byte>, id: MediaId)
    requires Elfs.Sized(img, id) && Described(img, id)
    ensures Acceptable(MasterOf(img, id)) <==> id != 1
  {
    hide MasterOf;
    var m := MasterOf(img, id);
    assert m[0x3A] == 0 && m[0x3B] == 0;
  }

  class Dos {
    const m: Machine
    var loadTrk: word
    var loadSect: word
    var ioBank: byte

    constructor (m: Machine)
      ensures this.m == m && ioBank == 0x80
    {
      this.m := m;
      loadTrk, loadSect, ioBank := 0, 0, 0x80;
    }

    /** Divides a sector number by twice the chunks per track: the divisor is shifted up until its top
        bit falls out, then shifted down and subtracted where it fits. */
    method ConvSector(n: word, chunksPerTrack: word)
      requires chunksPerTrack * 2 % 0x1_0000 != 0
      modifies this`loadTrk, this`loadSect
      ensures loadTrk == n / (chunksPerTrack * 2 % 0x1_0000)
      ensures loadSect == n % (chunksPerTrack * 2 % 0x1_0000)
    {
      hide Split, Shifted;
      var d: word := chunksPerTrack * 2 % 0x1_0000;
      loadTrk := 0;
      var tmp, y := Normalize(d);
      var x: word := n;
      ShiftedOnce(d, y - 1);
      SplitStart(Shifted(d, y), n);
      while y > 0
        invariant y > 0 ==> tmp == Shifted(d, y - 1)
        invariant Split(loadTrk, Shifted(d, y), x, n)
        decreases y
      {
        ShiftedOnce(d, y - 1);
        if y > 1 {
          ShiftedOnce(d, y - 2);
        }
        SplitHalved(loadTrk, Shifted(d, y), Shifted(d, y - 1), x, n);
        var carry := 0;
        if x >= tmp {
          x := x - tmp;
          carry := 1;
        }
        NoBitLost(loadTrk * 2 + carry);
        if y > 1 {
          HalfOfTwice(Shifted(d, y - 2));
        }
        loadTrk := (loadTrk * 2 + carry) % 0x1_0000;
        tmp := tmp / 2;
        y := y - 1;
      }
      loadSect := x;
      SplitEnd(loadTrk, d, x, n);
    }

    /** Reads the sector on the addressed track to `x` in the I/O bank. Track and sector are used as
        bytes. It never reports an error: when there is no such sector, 512 copies of the drive's error
        code are read in its place. */
    method RawLoadSector(x: word) returns (err: bool)
      requires m.Valid() && Idle(m.State()) && RamBank(ioBank)
      modifies m.Devices(), m.Memories()
      ensures m.Valid() && !err
      ensures var a := DosAim(Floppy.ClearError(old(m.State()).drive), loadSect, loadTrk);
              if FloppyTransfer.Aimed(a) then
                DataRead(old(m.State()), m.State(), ioBank, x, FloppyTransfer.SectorAt(a, a.targetSector))
              else FaultRead(old(m.State()), m.State(), ioBank, x, Floppy.SeekFault(a.media))
    {
      hide FloppyTransfer.Aimed, Loaded, Floppy.Inv, FloppyTransfer.SectorAt, DosAim, Machine.State, Machine.Valid,
           IoOut;
      ghost var s := m.State();
      SetChannel(m, ioBank, x);
      SetRegisters();
      ghost var s2 := m.State();
      DosAimKeeps(s.drive, loadSect, loadTrk);
      err := SeekAndTransfer(m, 0x41, ioBank, x);
      ClearThenDosAim(s.drive, loadSect, loadTrk);
      if FloppyTransfer.Aimed(Floppy.ClearError(s2.drive)) {
        SetupUnseen(s, s2, m.State(), ioBank, x, Floppy.ClearError(s2.drive));
      } else {
        FaultUnseen(s, s2, m.State(), ioBank, x, Floppy.SeekFault(s2.drive.media));
      }
    }

    method SetRegisters()
      requires m.Valid()
      modifies m.Devices(), m.Memories()
      ensures m.Valid()
      ensures m.State() == old(m.State()).(drive := DosAim(old(m.State()).drive, loadSect, loadTrk))
    {
      hide Floppy.Inv, StoreAt, Machine.State, Machine.Valid, Lo;
      var trk := Lo(loadTrk) as int;
      if trk >= 80 {
        trk := (trk + 48) % 256;
      }
      RegisterStores(m.State(), trk, Lo(loadSect));
      m.StoreByte(0x70_702A, trk);
      m.StoreByte(0x70_7029, Lo(loadSect));
    }

    /** Reads a linear sector of the disk. */
    method LoadLinear(x: word, ghost n: nat, ghost img: seq<byte>, ghost id: MediaId) returns (err: bool)
      requires m.Valid() && Quiet(m.State()) && HasDisk(m.State(), img, id) && RamBank(ioBank) && n < Sectors(id)
      requires loadTrk == n / SectorsPerTrack(id) && loadSect == n % SectorsPerTrack(id)
      modifies m.Devices(), m.Memories()
      ensures !err && m.Valid() && Quiet(m.State()) && HasDisk(m.State(), img, id)
      ensures 512 * n + 512 <= |img|
      ensures DataRead(old(m.State()), m.State(), ioBank, x, img[512 * n..512 * n + 512])
    {
      hide FloppyTransfer.Aimed, FloppyTransfer.SectorAt, Aim, DosAim, HasDisk, DataRead, Quiet, Machine.State,
           Machine.Valid;
      ghost var s := m.State();
      QuietReady(s);
      AimsAtSector(s, img, id, n);
      DosAimIsAim(s.drive, loadSect, loadTrk);
      err := RawLoadSector(x);
      DiskStays(s, m.State(), img, id, ioBank, x, img[512 * n..512 * n + 512]);
      QuietAfter(s, m.State(), ioBank, x, img[512 * n..512 * n + 512]);
    }

    /** Brings a volume in: master block, volume check, chunk table. It fails for the disks the check
        refuses. */
    method PageIn(ghost img: seq<byte>, ghost id: MediaId) returns (err: bool)
      requires m.Valid() && Quiet(m.State()) && HasDisk(m.State(), img, id) && Described(img, id) && ioBank == 0x80
      modifies this`loadTrk, this`loadSect, m.Devices(), m.Memories()
      ensures m.Valid()
      ensures err <==> id == 1
      ensures !err ==> Paged(m.State(), img, id)
    {
      hide HasDisk, DataRead, Quiet, Bank, Described, Acceptable, Machine.State, Machine.Valid, MasterOf, TableBytes;
      ghost var s := m.State();
      DiskIsSized(s, img, id);
      SmallDisksAreRefused(img, id);
      loadTrk := 0;
      loadSect := 1;
      err := LoadLinear(FSMB, 1, img, id);
      MasterArrives(s, m.State(), img, id);
      err := VerifyVolume(img, id);
      if err {
        return;
      }
      LoadTable(img, id);
    }

    /** The volume check, on the master block in RAM. */
    method VerifyVolume(ghost img: seq<byte>, ghost id: MediaId) returns (err: bool)
      requires m.Valid() && MasterInRam(m.State(), img, id)
      ensures err <==> !Acceptable(MasterOf(img, id))
    {
      hide Machine.State, Machine.Valid, MasterOf, Bank, WordAt, MasterInRam;
      FieldsInRam(m.State(), img, id);
      err := VerifyFormat();
      if !err {
        err := VerifySizes();
      }
    }

    /** The tests of signature, version and medium. */
    method VerifyFormat() returns (err: bool)
      requires m.Valid()
      ensures var b := Bank(m.State().mem, 0);
              !err <==> && WordAt(b, FSMB) == 0x4C45 && WordAt(b, FSMB + 2) == 0x5346
                        && WordAt(b, FSMB + 0x10) == 0x000A && WordAt(b, FSMB + 0x16) != 0
                        && (1 <= WordAt(b, FSMB + 0x08) < 3 ==> WordAt(b, FSMB + 0x16) < 0x10)
    {
      hide Machine.State, Machine.Valid, Bank, WordAt;
      var w := LoadLong(m, FSMB);
      if w != 0x4C45 { return true; }
      w := LoadLong(m, FSMB + 2);
      if w != 0x5346 { return true; }
      w := LoadLong(m, FSMB + 0x10);
      if w != 0x000A { return true; }
      var tab := LoadLong(m, FSMB + 0x16);
      if tab == 0 { return true; }
      w := LoadLong(m, FSMB + 0x08);
      return w >= 1 && w < 3 && tab >= 0x0010;
    }

    /** The tests of the numbers that describe the disk. */
    method VerifySizes() returns (err: bool)
      requires m.Valid()
      ensures var b := Bank(m.State().mem, 0);
              !err <==> && WordAt(b, FSMB + 0x38) % 2 == 0 && WordAt(b, FSMB + 0x18) == 2
                        && WordAt(b, FSMB + 0x12) / 256 + 1 < WordAt(b, FSMB + 0x16)
                        && WordAt(b, FSMB + 0x14) != 0
    {
      hide Machine.State, Machine.Valid, Bank, WordAt;
      var w := LoadLong(m, FSMB + 0x38);
      if w % 2 != 0 { return true; }
      w := LoadLong(m, FSMB + 0x18);
      if w != 2 { return true; }
      w := LoadLong(m, FSMB + 0x12);
      var tab := LoadLong(m, FSMB + 0x16);
      if w / 256 + 1 >= tab { return true; }
      w := LoadLong(m, FSMB + 0x14);
      return w == 0;
    }

    /** Reads the whole chunk table, which lies on the first track, to RAM. */
    method LoadTable(ghost img: seq<byte>, ghost id: MediaId)
      requires m.Valid() && Quiet(m.State()) && HasDisk(m.State(), img, id) && Described(img, id)
      requires MasterInRam(m.State(), img, id) && ioBank == 0x80
      modifies this`loadTrk, this`loadSect, m.Devices(), m.Memories()
      ensures m.Valid() && Paged(m.State(), img, id)
    {
      hide HasDisk, DataRead, Quiet, Bank, Described, Machine.State, Machine.Valid, MasterOf, WordAt,
           TablePart;
      var at: word := CTABLE;
      loadTrk := 0;
      loadSect := 2;
      TableSectorCount(m.State(), img, id);
      var y := LoadLong(m, FSMB + 0x16);
      ghost var i := 0;
      TableStarts(m.State(), img, id);
      while y != 0
        invariant m.Valid() && Quiet(m.State()) && HasDisk(m.State(), img, id) && MasterInRam(m.State(), img, id)
        invariant y as nat + i == TableSectors(id) && at as nat == CTABLE + 512 * i
        invariant loadTrk == 0 && loadSect == 2 + i
        invariant TablePart(m.State(), img, id, i)
        decreases y
      {
        ghost var s := m.State();
        var _ := LoadLinear(at, 2 + i, img, id);
        TableGrows(s, m.State(), img, id, i);
        at := Plus(at, 0x0200);
        loadSect := loadSect + 1;
        y := y - 1;
        i := i + 1;
      }
      TableComplete(m.State(), img, id);
    }

    /** Allocates a chunk on the table in RAM: the first free entry, scanning from entry 0. Neither the
        disk nor what is on it matters. */
    method AllocateChunk(ghost id: MediaId) returns (err: bool, chunk: word)
      requires m.Valid() && CountInRam(m.State(), id)
      modifies m.Devices(), m.Memories()
      ensures m.Valid() && CountInRam(m.State(), id)
      ensures var t := RamTable(old(m.State()), id);
              && (err <==> ScanFree(t, Chunks(id), 0) == -1)
              && (err ==> m.State() == old(m.State()))
              && (!err ==> chunk == ScanFree(t, Chunks(id), 0))
              && RamTable(m.State(), id) == AllocatedTimes(t, Chunks(id), 1)
    {
      hide RamTable, CountInRam, Bank, Machine.State, Machine.Valid, WordAt, StoreAt, Chunks, AllocatedTimes;
      LastEntry(id);
      ghost var s, t, n, i := m.State(), RamTable(m.State(), id), Chunks(id), 0;
      OneAllocation(t, n);
      CountWord(s, id);
      var last := LoadLong(m, FSMB + 0x12);
      last := last * 2 % 0x1_0000 + 1;
      var x: word := 0;
      while true
        invariant x as nat == 2 * i && i < n && m.Valid() && m.State() == s
        invariant ScanFree(t, n, 0) == ScanFree(t, n, i)
        decreases n - i
      {
        TableEntryInRam(s, id, i);
        var w := LoadLong(m, CTABLE + x);
        if w == 0 {
          break;
        }
        i := i + 1;
        x := x + 2;
        if x >= last {
          return true, 0;
        }
      }
      EntryStores(s, id, i);
      m.StoreByte(0x80_0000 + CTABLE + x, 0xFF);
      m.StoreByte(0x80_0000 + CTABLE + x + 1, 0xFF);
      return false, x / 2;
    }

    /** Counts the free chunks of the table in RAM. */
    method CountFree(ghost id: MediaId) returns (count: word)
      requires m.Valid() && CountInRam(m.State(), id)
      ensures count == FreeFrom(RamTable(m.State(), id), Chunks(id), 0)
    {
      hide RamTable, CountInRam, Bank, Machine.State, Machine.Valid, WordAt, Chunks;
      LastEntry(id);
      ghost var s, t, n, i := m.State(), RamTable(m.State(), id), Chunks(id), 0;
      CountWord(s, id);
      FreeFromBound(t, n, 0);
      var last := LoadLong(m, FSMB + 0x12);
      last := last * 2 % 0x1_0000 + 1;
      var x: word := 0;
      count := 0;
      while true
        invariant x as nat == 2 * i && i < n && count as nat <= i
        invariant FreeFrom(t, n, 0) == count as nat + FreeFrom(t, n, i)
        decreases n - i
      {
        TableEntryInRam(s, id, i);
        var w := LoadLong(m, CTABLE + x);
        if w == 0 {
          count := count + 1;
        }
        i := i + 1;
        x := x + 2;
        if x >= last {
          break;
        }
      }
    }

    /** The track and sector of a chunk's first sector, by division. */
    method ConvChunk(y: word, ghost img: seq<byte>, ghost id: MediaId)
      requires m.Valid() && Paged(m.State(), img, id) && 1 <= y < Chunks(id)
      modifies this`loadTrk, this`loadSect
      ensures loadTrk == FirstSector(id, y) / SectorsPerTrack(id)
      ensures loadSect == FirstSector(id, y) % SectorsPerTrack(id)
    {
      hide Paged, Bank, Machine.State, Machine.Valid, WordAt, Chunks, FirstSector, SectorsPerTrack, TableSectors;
      PagedFacts(m.State(), img, id);
      SectorOfChunk(id, y);
      var first := LoadLong(m, FSMB + 0x38);
      var perTrack := LoadLong(m, FSMB + 0x14);
      ConvSector(((y - 1) * 2 % 0x1_0000 + first) % 0x1_0000, perTrack);
    }

    /** Reads a chunk to `x` in the I/O bank: the first sector's track and sector by division, the
        second sector next to it. */
    method LoadChunk(x: word, y: word, ghost img: seq<byte>, ghost id: MediaId) returns (err: bool)
      requires m.Valid() && Paged(m.State(), img, id) && 1 <= y < Chunks(id) && RamBank(ioBank)
      modifies this`loadTrk, this`loadSect, m.Devices(), m.Memories()
      ensures !err && m.Valid() && Quiet(m.State()) && HasDisk(m.State(), img, id)
      ensures DataRead(old(m.State()), m.State(), ioBank, x, ChunkAt(img, id, y))
    {
      hide HasDisk, DataRead, Quiet, Paged, Bank, ChunkAt, Ok, Machine.State, Machine.Valid, WordAt, SectorsPerTrack,
           RamBank;
      ghost var s, n := m.State(), FirstSector(id, y);
      PagedFacts(s, img, id);
      ChunkSectors(id, y);
      ChunkIsTwoSectors(img, id, y);
      SecondSectorSameTrack(id, n);
      TrackIsEven(id);
      ConvChunk(y, img, id);
      err := LoadLinear(x, n, img, id);
      if err {
        return;
      }
      ghost var u := m.State();
      loadSect := (loadSect as int + 1) % 0x1_0000;
      err := LoadLinear(Plus(x, 0x0200), n + 1, img, id);
      ReadTwice(s, u, m.State(), ioBank, x, img[512 * n..512 * n + 512], img[512 * (n + 1)..512 * (n + 1) + 512]);
    }

    /** The successor of a chunk, from the table in RAM. */
    method NextChunk(x: word, ghost id: MediaId) returns (next: word)
      requires m.Valid() && x < Chunks(id)
      ensures next == RamTable(m.State(), id)[x]
    {
      hide RamTable, Bank, Machine.State, Machine.Valid;
      TableEntryInRam(m.State(), id, x);
      next := LoadLong(m, CTABLE + x * 2 % 0x1_0000);
    }

    /** Loads a program: its chunks one after the other from $0100 of a bank of its own. */
    method LoadExec(bank: byte, start: word, ghost img: seq<byte>, ghost id: MediaId, ghost cs: seq<nat>)
      returns (err: bool)
      requires m.Valid() && Paged(m.State(), img, id) && RamBank(bank) && bank != 0x80
      requires IsChain(TableOf(img, id), Chunks(id), cs) && start == cs[0] && |cs| <= 64
      modifies this, m.Devices(), m.Memories()
      ensures !err && m.Valid() && Paged(m.State(), img, id) && ioBank == 0x80
      ensures Bank(m.State().mem, bank - 0x80)
           == Laid(Bank(old(m.State()).mem, bank - 0x80), 0x0100, ChainData(img, id, cs))
    {
      hide Paged, TableOf, Bank, ChainData, DataRead, Laid, HasDisk, Quiet, Machine.State, Machine.Valid;
      ghost var i, before := 0, Bank(m.State().mem, bank - 0x80);
      PagedFacts(m.State(), img, id);
      NothingLaid(before, 0x0100, img, id, cs);
      ioBank := bank;
      var c, x: word := start, 0x0100;
      while true
        invariant m.Valid() && Paged(m.State(), img, id) && ioBank == bank && i < |cs|
        invariant c == cs[i] && x == Plus(0x0100, 1024 * i)
        invariant Bank(m.State().mem, bank - 0x80) == Laid(before, 0x0100, ChainData(img, id, cs[..i]))
        decreases |cs| - i
      {
        ghost var s := m.State();
        err := LoadChunk(x, c, img, id);
        StillPaged(s, m.State(), img, id, bank, x, ChunkAt(img, id, c));
        NextLaid(s, m.State(), before, bank, 0x0100, img, id, cs, i);
        ChainStep(TableOf(img, id), Chunks(id), cs, i);
        PagedTable(m.State(), img, id);
        c := NextChunk(c, id);
        i := i + 1;
        if c == 0xFFFF {
          break;
        }
        x := Plus(x, 0x0400);
      }
      assert cs[..i] == cs;
      ioBank := 0x80;
    }

    /** Loads a file of the volume as a program. Only files that pass the launcher's size check are
        loaded; their bytes are then at $0100 of the bank. */
    method LoadProgram(bank: byte, ghost img: seq<byte>, ghost id: MediaId, ghost files: seq<File>, ghost k: nat,
                       size: nat, start: word) returns (err: bool)
      requires m.Valid() && Paged(m.State(), img, id) && RamBank(bank) && bank != 0x80
      requires Volume(img, id, files) && k < |files|
      requires size == LongAt(Slot(img, id, k + 1), 0x1A) && start == WordAt(Slot(img, id, k + 1), 0x1E)
      modifies this, m.Devices(), m.Memories()
      ensures m.Valid() && Paged(m.State(), img, id)
      ensures err <==> |files[k].content| >= 65280
      ensures !err ==> Bank(m.State().mem, bank - 0x80)[0x0100..0x0100 + |files[k].content|] == files[k].content
    {
      hide Volume, TableOf, Bank, ChainData, Laid, Stored, Slot, Machine.State, Machine.Valid, Paged;
      ProgramFacts(img, id, files, k);
      if size % 0x1_0000 >= 65280 {
        return true;
      }
      if size / 0x1_0000 != 0 {
        return true;
      }
      ghost var before := Bank(m.State().mem, bank - 0x80);
      err := LoadExec(bank, start, img, id, files[k].chain);
      LaidContent(before, img, id, files[k]);
    }

    /** Shifts left until the top bit is set, and one shift further falls out again. */
    method Normalize(d: word) returns (tmp: word, y: nat)
      requires d != 0
      ensures y > 0 && tmp == Shifted(d, y - 1) && tmp >= 0x8000
    {
      var a: word := d;
      y := 0;
      while true
        invariant 0 < a && a == Shifted(d, y)
        decreases 0x1_0000 - a
      {
        y := y + 1;
        if a >= 0x8000 {
          break;
        }
        a := a * 2;
      }
      tmp := a;
    }
  }

  /** The 16-bit computation of a chunk's first sector, and the divisor from the chunks per track. */
  lemma SectorOfChunk(id: MediaId, y: word)
    requires 1 <= y < Chunks(id)
    ensures ((y - 1) * 2 % 0x1_0000 + (2 + TableSectors(id))) % 0x1_0000 == FirstSector(id, y)
    ensures 0 <= FirstSector(id, y) < 0x1_0000 && 2 + TableSectors(id) < 0x1_0000
    ensures SectorsPerTrack(id) / 2 * 2 % 0x1_0000 == SectorsPerTrack(id) > 0
  {
  }

  /** The bound of the scan over the table. */
  lemma LastEntry(id: MediaId)
    ensures 1 < Chunks(id) < 2000 && Chunks(id) <= 256 * TableSectors(id)
    ensures (Chunks(id) - 1) * 2 % 0x1_0000 + 1 == 2 * Chunks(id) - 1
  {
  }

  /** The drive as the byte stores to its two registers leave it. */
  function DosAim(d: Floppy.Drive, sect: word, trk: word): Floppy.Drive {
    d.(targetTrack := if Lo(trk) < 80 then Lo(trk) else (Lo(trk) + 48) % 256, targetSector := Lo(sect) % 32)
  }

  /** For the tracks there are, bytes do as well as words. */
  lemma DosAimIsAim(d: Floppy.Drive, sect: word, trk: word)
    requires trk < 160
    ensures DosAim(d, sect, trk) == Aim(d, sect, trk)
  {
  }

  /** The track and sector ports through their long addresses. */
  lemma RegisterStores(s: Sys, trk: byte, sect: byte)
    requires Ok(s)
    ensures StoreAt(StoreAt(s, 0x70_702A, trk), 0x70_7029, sect)
         == s.(drive := s.drive.(targetTrack := trk, targetSector := sect % 32))
  {
    PortOf(0x70_702A, s.stackBank);
    PortOf(0x70_7029, s.stackBank);
    hide Resolve;
  }

  lemma PortOf(a: addr, stackBank: byte)
    requires a == 0x70_702A || a == 0x70_7029
    ensures Resolve(a, stackBank) == Memory.Port(a % 256)
  {
  }

  lemma DosAimKeeps(d: Floppy.Drive, sect: word, trk: word)
    ensures var a := DosAim(d, sect, trk); a.disk == d.disk && a.media == d.media && a.status == d.status
  {
  }

  lemma PagedFacts(s: Sys, img: seq<byte>, id: MediaId)
    requires Paged(s, img, id)
    ensures Ok(s) && Quiet(s) && HasDisk(s, img, id) && Elfs.Sized(img, id)
    ensures WordAt(Bank(s.mem, 0), FSMB + 0x38) == 2 + TableSectors(id)
    ensures WordAt(Bank(s.mem, 0), FSMB + 0x14) == SectorsPerTrack(id) / 2
    ensures WordAt(Bank(s.mem, 0), FSMB + 0x12) == Chunks(id) - 1
  {
    var b, mb := Bank(s.mem, 0), MasterOf(img, id);
    assert forall i :: 0 <= i < 512 ==> b[FSMB + i] == mb[i];
    assert mb[0x3A] == 0 && mb[0x3B] == 0;
  }

  lemma TableEntryInRam(s: Sys, id: MediaId, c: nat)
    requires Ok(s) && c < Chunks(id)
    ensures WordAt(Bank(s.mem, 0), CTABLE + c * 2) == RamTable(s, id)[c]
  {
    hide Bank;
    SliceWord(Bank(s.mem, 0), CTABLE, CTABLE + Base(id), c * 2);
  }

  /** Reading to another bank leaves everything that is paged in. */
  lemma StillPaged(s: Sys, t: Sys, img: seq<byte>, id: MediaId, bank: byte, x: word, data: seq<byte>)
    requires Paged(s, img, id) && DataRead(s, t, bank, x, data) && bank != 0x80
    ensures Paged(t, img, id)
  {
    BankOfLoaded(s.mem, bank - 0x80, x, data, 0);
  }

  /** The directory entry of a file has its size and its first chunk; small files have short chains. */
  lemma ProgramFacts(img: seq<byte>, id: MediaId, files: seq<File>, k: nat)
    requires Volume(img, id, files) && k < |files|
    ensures Elfs.Sized(img, id) && k + 1 < 32 && Stored(img, id, files[k])
    ensures LongAt(Slot(img, id, k + 1), 0x1A) == |files[k].content|
    ensures IsChain(TableOf(img, id), Chunks(id), files[k].chain)
    ensures WordAt(Slot(img, id, k + 1), 0x1E) == files[k].chain[0]
    ensures |files[k].content| < 65280 ==> |files[k].chain| <= 64
  {
    assert Chains(files)[k + 1] == files[k].chain;
    assert Listed(img, id, k + 1, files[k]);
  }

  /** Laid from $0100, at most 64 chunks put a file of less than 65280 bytes in one piece: what wraps
      around the end of the bank stays below $0100. */
  lemma LaidContent(before: seq<byte>, img: seq<byte>, id: MediaId, f: File)
    requires |before| == BANK_SIZE && Elfs.Sized(img, id) && Stored(img, id, f) && |f.content| < 65280
    ensures forall i :: 0 <= i < |f.chain| ==> 1 <= f.chain[i] < Chunks(id)
    ensures Laid(before, 0x0100, ChainData(img, id, f.chain))[0x0100..0x0100 + |f.content|] == f.content
  {
    StoredContent(img, id, f);
  }

  lemma DiskIsSized(s: Sys, img: seq<byte>, id: MediaId)
    requires HasDisk(s, img, id)
    ensures Elfs.Sized(img, id) && |img| > 1024
  {
  }

  lemma MasterArrives(s: Sys, t: Sys, img: seq<byte>, id: MediaId)
    requires Elfs.Sized(img, id) && DataRead(s, t, 0x80, FSMB, img[512 * 1..512 * 1 + 512])
    ensures MasterInRam(t, img, id)
  {
    ThisPlace(s, t, 0x80, FSMB, img[512 * 1..512 * 1 + 512]);
  }

  lemma MasterWords(s: Sys, img: seq<byte>, id: MediaId)
    requires MasterInRam(s, img, id)
    ensures forall k :: 0 <= k < 511 ==> WordAt(Bank(s.mem, 0), FSMB + k) == WordAt(MasterOf(img, id), k)
  {
    forall k | 0 <= k < 511
      ensures WordAt(Bank(s.mem, 0), FSMB + k) == WordAt(MasterOf(img, id), k)
    {
      SliceWord(Bank(s.mem, 0), FSMB, FSMB + 512, k);
    }
  }

  /** The fields the volume check looks at. */
  lemma FieldsInRam(s: Sys, img: seq<byte>, id: MediaId)
    requires MasterInRam(s, img, id)
    ensures Ok(s) && Elfs.Sized(img, id)
    ensures var b, f := Bank(s.mem, 0), MasterOf(img, id);
            && WordAt(b, FSMB) == WordAt(f, 0) && WordAt(b, FSMB + 2) == WordAt(f, 2)
            && WordAt(b, FSMB + 0x10) == WordAt(f, 0x10) && WordAt(b, FSMB + 0x16) == WordAt(f, 0x16)
            && WordAt(b, FSMB + 0x08) == WordAt(f, 0x08) && WordAt(b, FSMB + 0x38) == WordAt(f, 0x38)
            && WordAt(b, FSMB + 0x18) == WordAt(f, 0x18) && WordAt(b, FSMB + 0x12) == WordAt(f, 0x12)
            && WordAt(b, FSMB + 0x14) == WordAt(f, 0x14)
  {
    hide Bank, MasterOf, WordAt;
    MasterWords(s, img, id);
    assert WordAt(Bank(s.mem, 0), FSMB + 0) == WordAt(MasterOf(img, id), 0);
  }

  lemma TableSectorCount(s: Sys, img: seq<byte>, id: MediaId)
    requires MasterInRam(s, img, id) && Described(img, id)
    ensures WordAt(Bank(s.mem, 0), FSMB + 0x16) == TableSectors(id)
  {
    MasterWords(s, img, id);
  }

  /** The first `i` sectors of the chunk table are in RAM. */
  predicate TablePart(s: Sys, img: seq<byte>, id: MediaId, i: nat) {
    && Ok(s) && Elfs.Sized(img, id) && i <= TableSectors(id)
    && Bank(s.mem, 0)[CTABLE..CTABLE + 512 * i] == img[1024..1024 + 512 * i]
  }

  lemma TableStarts(s: Sys, img: seq<byte>, id: MediaId)
    requires Ok(s) && Elfs.Sized(img, id)
    ensures TablePart(s, img, id, 0)
  {
  }

  lemma TableGrows(s: Sys, t: Sys, img: seq<byte>, id: MediaId, i: nat)
    requires TablePart(s, img, id, i) && i < TableSectors(id) && MasterInRam(s, img, id)
    requires DataRead(s, t, 0x80, CTABLE + 512 * i, img[512 * (2 + i)..512 * (2 + i) + 512])
    ensures TablePart(t, img, id, i + 1) && MasterInRam(t, img, id)
  {
    hide Loaded, Bank, Laid, MasterOf;
    var data, x := img[512 * (2 + i)..512 * (2 + i) + 512], CTABLE + 512 * i;
    OtherPlaces(s, t, 0x80, x, data, 0, FSMB, FSMB + 512);
    OtherPlaces(s, t, 0x80, x, data, 0, CTABLE, x);
    ThisPlace(s, t, 0x80, x, data);
    Joined(Bank(t.mem, 0), CTABLE, x, x + 512);
    Joined(img, 1024, 1024 + 512 * i, 1024 + 512 * i + 512);
  }

  lemma TableComplete(s: Sys, img: seq<byte>, id: MediaId)
    requires TablePart(s, img, id, TableSectors(id)) && Quiet(s) && HasDisk(s, img, id) && Described(img, id)
    requires MasterInRam(s, img, id)
    ensures Paged(s, img, id)
  {
  }

  /** The chunk table as it is in RAM. */
  function RamTable(s: Sys, id: MediaId): (t: seq<word>)
    requires Ok(s)
    ensures |t| == 256 * TableSectors(id)
  {
    Words(Bank(s.mem, 0)[CTABLE..CTABLE + Base(id)])
  }

  /** The field of the master block in RAM that the table routines look at. */
  predicate CountInRam(s: Sys, id: MediaId) {
    Ok(s) && WordAt(Bank(s.mem, 0), FSMB + 0x12) == Chunks(id) - 1
  }

  lemma CountWord(s: Sys, id: MediaId)
    requires CountInRam(s, id)
    ensures Ok(s) && WordAt(Bank(s.mem, 0), FSMB + 0x12) == Chunks(id) - 1
  {
  }

  /** Once a volume is paged in, both are those of the disk. */
  lemma PagedTable(s: Sys, img: seq<byte>, id: MediaId)
    requires Paged(s, img, id)
    ensures Elfs.Sized(img, id) && CountInRam(s, id) && RamTable(s, id) == TableOf(img, id)
  {
    hide Bank;
    PagedFacts(s, img, id);
  }

  lemma OneAllocation(t: seq<word>, n: nat)
    requires n <= |t|
    ensures var f := ScanFree(t, n, 0); AllocatedTimes(t, n, 1) == if f == -1 then t else t[f := END]
  {
    assert AllocatedTimes(t, n, 0) == t;
  }

  /** The two byte stores that mark an entry as the end of a chain. */
  lemma EntryStores(s: Sys, id: MediaId, c: nat)
    requires Ok(s) && c < Chunks(id)
    ensures var u := StoreAt(StoreAt(s, 0x80_0000 + CTABLE + 2 * c, 0xFF), 0x80_0000 + CTABLE + 2 * c + 1, 0xFF);
            && RamTable(u, id) == RamTable(s, id)[c := END]
            && (CountInRam(s, id) ==> CountInRam(u, id))
  {
    hide Resolve, Put, Bank;
    var a := 0x80_0000 + CTABLE + 2 * c;
    RamCell(a, s.stackBank);
    RamCell(a + 1, s.stackBank);
    PutInBank(s, a - 0x80_0000, 0xFF);
    var u := StoreAt(s, a, 0xFF);
    PutInBank(u, a + 1 - 0x80_0000, 0xFF);
    EntryBytesStored(Bank(s.mem, 0), id, c);
  }

  lemma EntryBytesStored(b: seq<byte>, id: MediaId, c: nat)
    requires |b| == BANK_SIZE && c < Chunks(id)
    ensures var bt := b[CTABLE + 2 * c := 0xFF][CTABLE + 2 * c + 1 := 0xFF];
            && Words(bt[CTABLE..CTABLE + Base(id)]) == Words(b[CTABLE..CTABLE + Base(id)])[c := END]
            && WordAt(bt, FSMB + 0x12) == WordAt(b, FSMB + 0x12)
  {
    var bt := b[CTABLE + 2 * c := 0xFF][CTABLE + 2 * c + 1 := 0xFF];
    assert WordBytes(END) == [0xFF, 0xFF];
    assert bt[CTABLE..CTABLE + Base(id)] == Splice(b[CTABLE..CTABLE + Base(id)], 2 * c, WordBytes(END));
    WordsSplice(b[CTABLE..CTABLE + Base(id)], c, END);
  }

  lemma RamCell(a: addr, stackBank: byte)
    requires 0x80_0000 <= a < 0x81_0000
    ensures Resolve(a, stackBank) == Ram(a - 0x80_0000)
  {
  }

  lemma PutInBank(s: Sys, i: nat, v: byte)
    requires Ok(s) && i < BANK_SIZE
    ensures Bank(Put(s.mem, Ram(i), v), 0) == Bank(s.mem, 0)[i := v]
  {
  }

  lemma ClearThenDosAim(d: Floppy.Drive, sect: word, trk: word)
    ensures Floppy.ClearError(DosAim(d, sect, trk)) == DosAim(Floppy.ClearError(d), sect, trk)
    ensures Floppy.ClearError(DosAim(d, sect, trk)).media == DosAim(d, sect, trk).media
  {
  }
}
