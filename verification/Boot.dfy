/** The DOS boot loader: it finds the system file through the master block's pointer, follows its
    chunk chain through a one-sector cache of the chunk table, and loads it to bank $81. */
module Boot {
  import opened Bytes
  import opened Machine
  import opened SectorLoad
  import opened ChunkTable
  import opened Elfs
  import opened DiskRead
  import opened Division
  import Floppy
  import FloppyTransfer

  /** If `cct` is the index of a sector of the chunk table, that sector is in RAM at $80:A000. */
  predicate TableCached(s: Sys, img: seq<byte>, id: MediaId, cct: word) {
    Ok(s) && Elfs.Sized(img, id) &&
    (cct < TableSectors(id) ==> Bank(s.mem, 0)[0xA000..0xA200] == img[512 * (cct + 2)..512 * (cct + 2) + 512])
  }

  /** The machine while the loader works on a volume: quiet, the disk in the drive, the loader's sectors
      per track right, and the master block and one table sector cached. */
  predicate Booting(s: Sys, img: seq<byte>, id: MediaId, spt: word, cct: word) {
    && Quiet(s) && HasDisk(s, img, id) && Described(img, id)
    && spt == SectorsPerTrack(id)
    && MasterInRam(s, img, id) && TableCached(s, img, id, cct)
  }

  predicate NoDisk(s: Sys) { s.drive.media == Floppy.NoDisk }

  class BootLoader {
    const m: Machine
    var loadSect: word
    var loadTrk: word
    var chunk: word
    var cct: word
    var spt: word
    var bank: byte

    constructor (m: Machine)
      ensures this.m == m
    {
      this.m := m;
      loadSect, loadTrk, chunk, cct, spt, bank := 0, 0, 0, 0, 0, 0;
    }

    /** Reads the addressed sector to `x` in the current bank. It always reports success: when there is
        no such sector, 512 copies of the drive's error code are read in its place. */
    method LoadSector(x: word) returns (ok: bool)
      requires m.Valid() && Idle(m.State()) && RamBank(bank)
      modifies m.Devices(), m.Memories()
      ensures m.Valid() && ok
      ensures var a := Aim(Floppy.ClearError(old(m.State()).drive), loadSect, loadTrk);
              if FloppyTransfer.Aimed(a) then
                DataRead(old(m.State()), m.State(), bank, x, FloppyTransfer.SectorAt(a, a.targetSector))
              else FaultRead(old(m.State()), m.State(), bank, x, Floppy.SeekFault(a.media))
    {
      hide FloppyTransfer.Aimed, Loaded, Floppy.Inv, FloppyTransfer.SectorAt, IoWord, Aim, IoOut;
      ghost var s := m.State();
      SetChannel(m, bank, x);
      SetRegisters();
      AimKeeps(s.drive, loadSect, loadTrk);
      ghost var s2 := m.State();
      var failed := SeekAndTransfer(m, 0x61, bank, x);
      ok := !failed;
      ClearThenAim(s.drive, loadSect, loadTrk);
      if FloppyTransfer.Aimed(Floppy.ClearError(s2.drive)) {
        SetupUnseen(s, s2, m.State(), bank, x, Floppy.ClearError(s2.drive));
      } else {
        FaultUnseen(s, s2, m.State(), bank, x, Floppy.SeekFault(s2.drive.media));
      }
    }

    method SetRegisters()
      requires m.Valid() && m.drive.status != Floppy.Writing
      modifies m.Devices(), m.Memories()
      ensures m.Valid()
      ensures m.State() == old(m.State()).(drive := Aim(old(m.State()).drive, loadSect, loadTrk))
    {
      hide IoWord, Aim, Floppy.Inv;
      AimWords(m.State(), loadSect, loadTrk);
      StoreWord(m, 0x7029, loadSect);
      var trk: int := loadTrk;
      if trk >= 80 {
        trk := (trk + 48) % 0x1_0000;
      }
      StoreWord(m, 0x702A, trk);
    }

    /** Repeated subtraction turns a linear sector into track and sector. */
    method Adjust()
      requires spt > 0 && loadTrk == 0
      modifies this`loadSect, this`loadTrk
      ensures loadTrk == old(loadSect) / spt && loadSect == old(loadSect) % spt
    {
      ghost var n := loadSect;
      while loadSect >= spt
        invariant loadTrk * spt + loadSect == n
        decreases loadSect
      {
        OneTrackMore(loadTrk, spt, loadSect, n);
        loadSect := loadSect - spt;
        loadTrk := (loadTrk as int + 1) % 0x1_0000;
      }
      DivisionUnique(n, spt, loadTrk, loadSect);
    }

    /** Reads linear sector `loadSect` of the disk to `x`. */
    method AdjustLoadSector(x: word, ghost img: seq<byte>, ghost id: MediaId) returns (ok: bool)
      requires m.Valid() && Quiet(m.State()) && RamBank(bank) && HasDisk(m.State(), img, id)
      requires spt == SectorsPerTrack(id) && loadTrk == 0 && loadSect < Sectors(id)
      modifies this`loadSect, this`loadTrk, m.Devices(), m.Memories()
      ensures ok && m.Valid() && HasDisk(m.State(), img, id)
      ensures loadTrk == old(loadSect) / spt && loadSect == old(loadSect) % spt
      ensures 512 * old(loadSect) + 512 <= |img|
      ensures DataRead(old(m.State()), m.State(), bank, x, img[512 * old(loadSect)..512 * old(loadSect) + 512])
    {
      hide HasDisk, Aim, FloppyTransfer.Aimed, FloppyTransfer.SectorAt, Loaded, Floppy.Inv;
      ghost var s, n := m.State(), loadSect as nat;
      Adjust();
      AimsAtSector(s, img, id, n);
      ok := LoadSector(x);
      DiskStays(s, m.State(), img, id, bank, x, img[512 * n..512 * n + 512]);
    }

    ghost predicate Loading(img: seq<byte>, id: MediaId)
      reads this, m, m.mem, m.mem.ram, m.mem.vram, m.mem.rom, m.drive, m.drive.disk, m.drive.buffer
      reads m.ch0, m.ch1, m.ch2, m.ch3
    {
      m.Valid() && Booting(m.State(), img, id, spt, cct)
    }

    /** Reads sector `loadSect` of the disk to `x` in bank $81 and the one after it behind it, without
        adjusting the track again. */
    method LoadPair(x: word, ghost img: seq<byte>, ghost id: MediaId)
      returns (ok: bool, next: word)
      requires m.Valid() && Quiet(m.State()) && HasDisk(m.State(), img, id) && bank == 0x81
      requires spt == SectorsPerTrack(id) && loadTrk == 0 && loadSect % 2 == 0 && loadSect < Sectors(id) - 1
      modifies this`loadSect, this`loadTrk, m.Devices(), m.Memories()
      ensures ok && m.Valid() && next == Plus(x, 1024)
      ensures 512 * old(loadSect) + 1024 <= |img|
      ensures DataRead(old(m.State()), m.State(), 0x81, x,
                       img[512 * old(loadSect)..512 * old(loadSect) + 512]
                       + img[512 * (old(loadSect) + 1)..512 * (old(loadSect) + 1) + 512])
    {
      hide HasDisk, DataRead, Aim, FloppyTransfer.Aimed, FloppyTransfer.SectorAt, Ok, Machine.State, Machine.Valid;
      ghost var s, n := m.State(), loadSect as nat;
      SecondSectorSameTrack(id, n);
      ok := AdjustLoadSector(x, img, id);
      ghost var u := m.State();
      loadSect := (loadSect as int + 1) % 0x1_0000;
      next := Plus(x, 0x0200);
      QuietAfter(s, u, 0x81, x, img[512 * n..512 * n + 512]);
      AimsAtSector(u, img, id, n + 1);
      ok := LoadSector(next);
      ReadTwice(s, u, m.State(), 0x81, x, img[512 * n..512 * n + 512], img[512 * (n + 1)..512 * (n + 1) + 512]);
      next := Plus(next, 0x0200);
    }

    /** Reads the current chunk to `x` in bank $81 and returns the address after it. */
    method LoadChunk(x: word, ghost img: seq<byte>, ghost id: MediaId) returns (ok: bool, next: word)
      requires Loading(img, id) && 1 <= chunk < Chunks(id)
      modifies this, m.Devices(), m.Memories()
      ensures ok && Loading(img, id) && chunk == old(chunk) && next == Plus(x, 1024)
      ensures DataRead(old(m.State()), m.State(), 0x81, x, ChunkAt(img, id, chunk))
    {
      hide HasDisk, DataRead, Booting, ChunkAt, Ok, Quiet, Machine.State, Machine.Valid, Bank;
      ghost var s := m.State();
      BootingFacts(s, img, id, spt, cct);
      ChunkSectors(id, chunk);
      ChunkIsTwoSectors(img, id, chunk);
      bank := 0x81;
      var first := LoadLong(m, 0x9838);
      loadSect := ((chunk - 1) * 2 % 0x1_0000 + first) % 0x1_0000;
      loadTrk := 0;
      ok, next := LoadPair(x, img, id);
      ChunkKeepsBooting(s, m.State(), img, id, spt, cct, x, ChunkAt(img, id, chunk));
    }

    /** Makes sector `a` of the chunk table the cached one, reading it only when it is not. */
    method CacheTableSector(a: word, ghost img: seq<byte>, ghost id: MediaId) returns (ok: bool)
      requires Loading(img, id) && a < TableSectors(id)
      modifies this`loadSect, this`loadTrk, this`bank, this`cct, m.Devices(), m.Memories()
      ensures ok && Loading(img, id) && cct == a
      ensures forall b :: 1 <= b < 16 ==> Bank(m.State().mem, b) == Bank(old(m.State()).mem, b)
    {
      hide HasDisk, DataRead, Booting, Ok, Quiet, TableOf, Bank, Machine.State, Machine.Valid, WordAt;
      ghost var s := m.State();
      ok := true;
      BootingFacts(s, img, id, spt, cct);
      if a != cct {
        loadSect := a + 2;
        loadTrk := 0;
        bank := 0x80;
        ok := AdjustLoadSector(0xA000, img, id);
        TableKeepsBooting(s, m.State(), img, id, spt, cct, a);
        cct := a;
      }
    }

    /** Replaces the chunk by its successor in the chunk table; false at the end of the chain. */
    method NextChunk(ghost img: seq<byte>, ghost id: MediaId) returns (ok: bool, more: bool)
      requires Loading(img, id) && chunk < 256 * TableSectors(id)
      modifies this, m.Devices(), m.Memories()
      ensures ok && Loading(img, id)
      ensures chunk == TableOf(img, id)[old(chunk)] && more == (chunk != END)
      ensures forall b :: 1 <= b < 16 ==> Bank(m.State().mem, b) == Bank(old(m.State()).mem, b)
    {
      hide Booting, TableOf, Bank, Machine.State, Machine.Valid, WordAt;
      ok := CacheTableSector(chunk / 256, img, id);
      CachedSuccessor(m.State(), img, id, spt, chunk);
      var k := chunk % 256 * 2 % 0x1_0000;
      chunk := LoadLong(m, 0xA000 + k);
      more := chunk != 0xFFFF;
    }

    /** Loads the master block and takes from it the first chunk of the system file and the geometry;
        false when the sector names no system file, or when there is no disk. */
    method LoadMaster(ghost img: seq<byte>, ghost id: MediaId) returns (ok: bool)
      requires m.Valid() && Idle(m.State())
      requires NoDisk(m.State()) || (HasDisk(m.State(), img, id) && Described(img, id))
      modifies this, m.Devices(), m.Memories()
      ensures ok <==> !NoDisk(old(m.State())) && BootPointer(img, id) != 0
      ensures ok ==> Loading(img, id) && chunk == BootPointer(img, id)
    {
      hide HasDisk, DataRead, FaultRead, Booting, Ok, Quiet, Bank, Described, BootPointer, Machine.State, Machine.Valid,
           FloppyTransfer.Aimed, FloppyTransfer.SectorAt, Aim, WordAt, NoDisk;
      ghost var s := m.State();
      cct := 0x3C00;
      loadTrk := 0;
      loadSect := 1;
      bank := 0x80;
      if NoDisk(s) {
        NothingToAimAt(s);
      } else {
        ClearedHasDisk(s, img, id);
        AimsAtSector(s.(drive := Floppy.ClearError(s.drive)), img, id, 1);
      }
      ok := LoadSector(0x9800);
      if NoDisk(s) {
        FaultIsNoMaster(s, m.State());
      } else {
        MasterStartsBooting(s, m.State(), img, id);
        TrackIsEven(id);
      }
      ok := CheckMaster();
    }

    /** The signature and the fields of the master block in RAM. */
    method CheckMaster() returns (ok: bool)
      requires m.Valid()
      modifies this`chunk, this`spt
      ensures var b := Bank(m.State().mem, 0);
              && (ok <==> WordAt(b, 0x9800) == 0x4C45 && WordAt(b, 0x9802) == 0x5346 && WordAt(b, 0x981A) != 0)
              && (ok ==> chunk == WordAt(b, 0x981A) && spt == WordAt(b, 0x9814) as int * 2 % 0x1_0000)
    {
      hide Machine.State, Machine.Valid, Bank, WordAt;
      var w := LoadLong(m, 0x9800);
      if w != 0x4C45 { return false; }
      w := LoadLong(m, 0x9802);
      if w != 0x5346 { return false; }
      w := LoadLong(m, 0x981A);
      if w == 0 { return false; }
      chunk := w;
      w := LoadLong(m, 0x9814);
      spt := w as int * 2 % 0x1_0000;
      return true;
    }

    /** Follows a chain from its first chunk, loading chunk after chunk to bank $81 from address 0. */
    method LoadChain(ghost img: seq<byte>, ghost id: MediaId, ghost cs: seq<nat>)
      requires Loading(img, id) && IsChain(TableOf(img, id), Chunks(id), cs) && chunk == cs[0] && |cs| <= 64
      modifies this, m.Devices(), m.Memories()
      ensures m.Valid() && Elfs.Sized(img, id)
      ensures Bank(m.State().mem, 1) == Laid(Bank(old(m.State()).mem, 1), 0, ChainData(img, id, cs))
    {
      hide Booting, TableOf, Bank, ChainData, DataRead, Laid, Machine.State, Machine.Valid;
      ghost var i, start := 0, Bank(m.State().mem, 1);
      var x: word := 0;
      var ok, more := true, true;
      BootingFacts(m.State(), img, id, spt, cct);
      NothingLaid(start, 0, img, id, cs);
      assert cs[..0] == [];
      while more
        invariant Loading(img, id) && i <= |cs|
        invariant more <==> i < |cs|
        invariant more ==> chunk == cs[i] && x == 1024 * i
        invariant Bank(m.State().mem, 1) == Laid(start, 0, ChainData(img, id, cs[..i]))
        decreases |cs| - i
      {
        ghost var before := m.State();
        ok, x := LoadChunk(x, img, id);
        NextLaid(before, m.State(), start, 0x81, 0, img, id, cs, i);
        ChainStep(TableOf(img, id), Chunks(id), cs, i);
        ok, more := NextChunk(img, id);
        i := i + 1;
      }
      assert cs[..i] == cs;
    }

    /** Loads the system file of a volume to bank $81. It fails when the volume has none or there is no
        disk; otherwise the loader then checks the signature the loaded bytes start with. */
    method BootLoad(ghost img: seq<byte>, ghost id: MediaId, ghost files: seq<File>, ghost k: nat)
      returns (ok: bool, signed: bool)
      requires m.Valid() && Idle(m.State())
      requires NoDisk(m.State()) || (HasDisk(m.State(), img, id) && Volume(img, id, files))
      requires !NoDisk(m.State()) && BootPointer(img, id) != 0 ==>
                 k < |files| && BootPointer(img, id) == files[k].chain[0] && |files[k].content| <= 64 * 1024
      modifies this, m.Devices(), m.Memories()
      ensures ok <==> !NoDisk(old(m.State())) && BootPointer(img, id) != 0
      ensures ok ==> m.Valid() && files[k].content <= Bank(m.State().mem, 1)
      ensures ok ==> (signed <==> Bank(m.State().mem, 1)[..4] == [0x44, 0x4F, 0x53, 0x2E])
    {
      hide HasDisk, NoDisk, Volume, Booting, Described, Stored, TableOf, Bank, ChainData, Quiet, BootPointer;
      if !NoDisk(m.State()) {
        VolumeDescribed(img, id, files);
      }
      ok := LoadMaster(img, id);
      if !ok {
        return false, false;
      }
      VolumeForBoot(img, id, files, k);
      ghost var start := Bank(m.State().mem, 1);
      LoadChain(img, id, files[k].chain);
      LoadedContent(start, img, id, files[k]);
      signed := SignatureCheck();
    }

    /** The comparison of the first four bytes of bank $81. */
    method SignatureCheck() returns (signed: bool)
      requires m.Valid()
      ensures signed <==> Bank(m.State().mem, 1)[..4] == [0x44, 0x4F, 0x53, 0x2E]
    {
      var b0, p0 := m.mem.Read(0x81_0000);
      var b1, p1 := m.mem.Read(0x81_0001);
      var b2, p2 := m.mem.Read(0x81_0002);
      var b3, p3 := m.mem.Read(0x81_0003);
      ghost var b := Bank(m.State().mem, 1);
      assert b[0] == b0 && b[1] == b1 && b[2] == b2 && b[3] == b3;
      signed := Word(b0, b1) == 0x4F44 && Word(b2, b3) == 0x2E53;
      assert b[..4] == [b0, b1, b2, b3];
    }
  }

  lemma OneTrackMore(q: nat, d: nat, r: nat, n: nat)
    requires q * d + r == n < 0x1_0000 && r >= d > 0
    ensures (q + 1) * d + (r - d) == n && q + 1 < 0x1_0000
  {
    assert q <= q * d;
  }

  /** The first data sector, from the cached master block. */
  lemma FirstDataSector(s: Sys, img: seq<byte>, id: MediaId)
    requires MasterInRam(s, img, id) && Described(img, id)
    ensures WordAt(Bank(s.mem, 0), 0x9838) == 2 + TableSectors(id)
  {
    SliceWord(Bank(s.mem, 0), 0x9800, 0x9A00, 0x38);
    var mb := MasterOf(img, id);
    assert mb[0x3A] == 0 && mb[0x3B] == 0;
  }

  lemma BootingFacts(s: Sys, img: seq<byte>, id: MediaId, spt: word, cct: word)
    requires Booting(s, img, id, spt, cct)
    ensures Ok(s) && Quiet(s) && HasDisk(s, img, id) && Elfs.Sized(img, id) && spt == SectorsPerTrack(id)
    ensures WordAt(Bank(s.mem, 0), 0x9838) == 2 + TableSectors(id)
  {
    FirstDataSector(s, img, id);
  }

  lemma ChunkKeepsBooting(s: Sys, t: Sys, img: seq<byte>, id: MediaId, spt: word, cct: word, x: word, data: seq<byte>)
    requires Booting(s, img, id, spt, cct) && DataRead(s, t, 0x81, x, data)
    ensures Booting(t, img, id, spt, cct)
  {
    BankOfLoaded(s.mem, 1, x, data, 0);
  }

  lemma TableKeepsBooting(s: Sys, t: Sys, img: seq<byte>, id: MediaId, spt: word, cct: word, a: word)
    requires Booting(s, img, id, spt, cct) && a < TableSectors(id) && 512 * (a + 2) + 512 <= |img|
    requires DataRead(s, t, 0x80, 0xA000, img[512 * (a + 2)..512 * (a + 2) + 512])
    ensures Booting(t, img, id, spt, a)
    ensures forall b :: 1 <= b < 16 ==> Bank(t.mem, b) == Bank(s.mem, b)
  {
    hide Loaded, Bank, Laid, Described, MasterOf;
    var data := img[512 * (a + 2)..512 * (a + 2) + 512];
    OtherPlaces(s, t, 0x80, 0xA000, data, 0, 0x9800, 0x9A00);
    ThisPlace(s, t, 0x80, 0xA000, data);
    forall b | 1 <= b < 16
      ensures Bank(t.mem, b) == Bank(s.mem, b)
    {
      BankOfLoaded(s.mem, 0, 0xA000, data, b);
    }
  }

  lemma MasterStartsBooting(s: Sys, t: Sys, img: seq<byte>, id: MediaId)
    requires HasDisk(s, img, id) && Described(img, id)
    requires DataRead(s, t, 0x80, 0x9800, img[512 * 1..512 * 1 + 512])
    ensures Booting(t, img, id, SectorsPerTrack(id), 0x3C00)
    ensures var b := Bank(t.mem, 0);
            && WordAt(b, 0x9800) == 0x4C45 && WordAt(b, 0x9802) == 0x5346
            && WordAt(b, 0x9814) == SectorsPerTrack(id) / 2 && WordAt(b, 0x981A) == BootPointer(img, id)
  {
    hide Loaded, Bank, Described, BootPointer;
    ThisPlace(s, t, 0x80, 0x9800, img[512 * 1..512 * 1 + 512]);
    MasterWordsForBoot(img, id);
    SliceWord(Bank(t.mem, 0), 0x9800, 0x9A00, 0);
    SliceWord(Bank(t.mem, 0), 0x9800, 0x9A00, 2);
    SliceWord(Bank(t.mem, 0), 0x9800, 0x9A00, 0x14);
    SliceWord(Bank(t.mem, 0), 0x9800, 0x9A00, 0x1A);
  }

  /** With its table sector cached, a chunk's entry in the cache is its successor in the table. */
  lemma CachedSuccessor(s: Sys, img: seq<byte>, id: MediaId, spt: word, c: word)
    requires Booting(s, img, id, spt, c / 256) && c < 256 * TableSectors(id)
    ensures WordAt(Bank(s.mem, 0), 0xA000 + c % 256 * 2) == TableOf(img, id)[c]
  {
    hide Bank, TableOf, Quiet, HasDisk, MasterInRam;
    var cache := Bank(s.mem, 0)[0xA000..0xA200];
    TableSector(img, id, c / 256, cache, c % 256);
    SliceWord(Bank(s.mem, 0), 0xA000, 0xA200, 2 * (c % 256));
  }

  lemma VolumeDescribed(img: seq<byte>, id: MediaId, files: seq<File>)
    requires Volume(img, id, files)
    ensures Elfs.Sized(img, id) && Described(img, id)
  {
  }

  lemma MasterWordsForBoot(img: seq<byte>, id: MediaId)
    requires Elfs.Sized(img, id) && Described(img, id)
    ensures var mb := MasterOf(img, id);
            && WordAt(mb, 0) == 0x4C45 && WordAt(mb, 2) == 0x5346
            && WordAt(mb, 0x14) == SectorsPerTrack(id) / 2 && WordAt(mb, 0x1A) == BootPointer(img, id)
  {
  }

  lemma VolumeForBoot(img: seq<byte>, id: MediaId, files: seq<File>, k: nat)
    requires Volume(img, id, files) && k < |files| && |files[k].content| <= 64 * 1024
    ensures Elfs.Sized(img, id) && Described(img, id) && Stored(img, id, files[k])
    ensures IsChain(TableOf(img, id), Chunks(id), files[k].chain) && |files[k].chain| <= 64
  {
    assert Chains(files)[k + 1] == files[k].chain;
  }

  /** Once the whole chain is laid from address 0, the bank starts with the file. */
  lemma LoadedContent(start: seq<byte>, img: seq<byte>, id: MediaId, f: File)
    requires |start| == BANK_SIZE && Elfs.Sized(img, id) && Stored(img, id, f) && |f.chain| <= 64
    ensures forall i :: 0 <= i < |f.chain| ==> 1 <= f.chain[i] < Chunks(id)
    ensures f.content <= Laid(start, 0, ChainData(img, id, f.chain))
  {
    StoredContent(img, id, f);
  }

  lemma NothingToAimAt(s: Sys)
    requires NoDisk(s)
    ensures var a := Aim(Floppy.ClearError(s.drive), 1, 0);
            !FloppyTransfer.Aimed(a) && Floppy.SeekFault(a.media) == Floppy.ERROR_NO_DISK
  {
  }

  lemma ClearedHasDisk(s: Sys, img: seq<byte>, id: MediaId)
    requires Idle(s) && HasDisk(s, img, id)
    ensures var d := Floppy.ClearError(s.drive);
            HasDisk(s.(drive := d), img, id) && d.status == Floppy.Ready
  {
  }

  lemma DiskIsThere(s: Sys, img: seq<byte>, id: MediaId)
    requires HasDisk(s, img, id)
    ensures !NoDisk(s)
  {
  }

  /** What is read from an empty drive is not taken for a master block. */
  lemma FaultIsNoMaster(s: Sys, t: Sys)
    requires FaultRead(s, t, 0x80, 0x9800, Floppy.ERROR_NO_DISK)
    ensures WordAt(Bank(t.mem, 0), 0x9800) == 0x0202
  {
    BankOfLoaded(s.mem, 0, 0x9800, seq(512, _ => Floppy.ERROR_NO_DISK), 0);
  }

  lemma ClearThenAim(d: Floppy.Drive, sect: word, trk: word)
    ensures Floppy.ClearError(Aim(d, sect, trk)) == Aim(Floppy.ClearError(d), sect, trk)
    ensures Floppy.ClearError(Aim(d, sect, trk)).media == Aim(d, sect, trk).media
  {
  }
}
