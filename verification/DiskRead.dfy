/** Reading one sector of an ELFS floppy into RAM: from a linear sector number to track and sector
    registers, through the drive and the DMA channel, to the bytes of the image. */
module DiskRead {
  import opened Bytes
  import opened Division
  import opened Memory
  import opened Dma
  import opened Machine
  import opened SectorLoad
  import opened ChunkTable
  import opened Elfs
  import Floppy
  import FloppyRuns
  import FloppyTransfer

  // ------------------------------------------------------------------ geometry

  /** The first of the two sectors of a chunk. */
  function FirstSector(id: MediaId, c: nat): int { 2 * (c - 1) + 2 + TableSectors(id) }

  /** The loader's sector of a chunk is at the offset the writer put the chunk; it is even, and both
      sectors are on the disk. */
  lemma ChunkSectors(id: MediaId, c: nat)
    requires 1 <= c < Chunks(id)
    ensures 512 * FirstSector(id, c) == ChunkOffset(id, c)
    ensures FirstSector(id, c) % 2 == 0 && 0 < FirstSector(id, c) < Sectors(id) - 1
  {
  }

  /** The track register for a linear track: the second side starts at 128. */
  function TrackRegister(track: word): word {
    if track < 80 then track else (track + 48) % 0x1_0000
  }

  lemma TrackRegisterSplits(q: nat)
    requires q < 160
    ensures TrackRegister(q) < 256 && TrackRegister(q) % 128 < 80
    ensures TrackRegister(q) / 128 * 80 + TrackRegister(q) % 128 == q
  {
  }

  lemma Divided(id: MediaId, n: nat)
    requires n < Sectors(id)
    ensures n / SectorsPerTrack(id) < 160 && n % SectorsPerTrack(id) < SectorsPerTrack(id)
    ensures n == n / SectorsPerTrack(id) * SectorsPerTrack(id) + n % SectorsPerTrack(id)
  {
    match id
    case 1 => assert n == n / 12 * 12 + n % 12;
    case 2 => assert n == n / 16 * 16 + n % 16;
    case _ => assert n == n / 20 * 20 + n % 20;
  }

  /** Quotient and remainder by the sectors per track address the sector with that number. */
  lemma SectorIsLinear(id: MediaId, n: nat)
    requires n < Sectors(id)
    ensures var q, r, t := n / SectorsPerTrack(id), n % SectorsPerTrack(id), TrackRegister(n / SectorsPerTrack(id));
            && q < 160 && r < SectorsPerTrack(id) && t < 256 && t % 128 < 80
            && Floppy.SectorOffset(t / 128, t % 128, r, SectorsPerTrack(id)) == 512 * n
  {
    hide TrackRegister, SectorsPerTrack, Sectors;
    Divided(id, n);
    TrackRegisterSplits(n / SectorsPerTrack(id));
  }

  /** An even sector is never the last of its track, so the sector after it is on the same track. */
  lemma SecondSectorSameTrack(id: MediaId, n: nat)
    requires n % 2 == 0
    ensures (n + 1) / SectorsPerTrack(id) == n / SectorsPerTrack(id)
    ensures (n + 1) % SectorsPerTrack(id) == n % SectorsPerTrack(id) + 1
  {
    hide SectorsPerTrack;
    var d := SectorsPerTrack(id);
    TrackIsEven(id);
    var q, r := n / d, n % d;
    QuotientAndRest(n, d);
    EvenRest(n, d, q, r);
    DivisionUnique(n + 1, d, q, r + 1);
  }

  lemma TrackIsEven(id: MediaId)
    ensures SectorsPerTrack(id) in {12, 16, 20}
  {
  }

  lemma QuotientAndRest(n: nat, d: nat)
    requires d > 0
    ensures n / d * d + n % d == n && n % d < d
  {
  }

  lemma EvenRest(n: nat, d: nat, q: nat, r: nat)
    requires d in {12, 16, 20} && q * d + r == n && r < d && n % 2 == 0
    ensures r + 1 < d
  {
    if d == 12 {
      assert n == q * 12 + r;
    } else if d == 16 {
      assert n == q * 16 + r;
    } else {
      assert n == q * 20 + r;
    }
  }

  // ------------------------------------------------------------------ what a sector read leaves

  /** The drive with its target registers set as a loader sets them. */
  function Aim(d: Floppy.Drive, sect: word, trk: word): Floppy.Drive {
    d.(targetSector := Lo(sect) % 32, targetTrack := Lo(TrackRegister(trk)))
  }

  /** The machine is quiet: no DMA running and the drive ready. */
  predicate Quiet(s: Sys) {
    Ok(s) && DmaIdle(s) && s.drive.status == Floppy.Ready
  }

  /** The machine is idle: no DMA running, and the drive ready or with an error nobody has acknowledged. */
  predicate Idle(s: Sys) {
    Ok(s) && DmaIdle(s) && (s.drive.status == Floppy.Ready || s.drive.status == Floppy.Error)
  }

  /** The machine in state `s` holds the image in its drive. */
  predicate HasDisk(s: Sys, img: seq<byte>, id: MediaId) {
    && Ok(s) && Elfs.Sized(img, id) && s.drive.media != Floppy.NoDisk
    && Floppy.SectorCount(s.drive.media) == SectorsPerTrack(id)
    && img <= s.drive.disk
  }

  /** From `s` to `t` disk data has been read to `x` in a RAM bank and nothing else of interest
      changed. */
  predicate DataRead(s: Sys, t: Sys, bank: byte, x: word, data: seq<byte>) {
    && Ok(s) && Quiet(t) && RamBank(bank)
    && t.mem == Loaded(s.mem, bank - 0x80, x, data)
    && t.stackBank == s.stackBank && t.env == s.env
    && t.drive.disk == s.drive.disk && t.drive.media == s.drive.media
  }

  lemma DiskStays(s: Sys, t: Sys, img: seq<byte>, id: MediaId, bank: byte, x: word, data: seq<byte>)
    requires HasDisk(s, img, id) && DataRead(s, t, bank, x, data)
    ensures HasDisk(t, img, id)
  {
  }

  /** With the quotient and remainder of a sector number in the registers, the drive is aimed at the
      bytes of that sector of the image. */
  lemma AimsAtSector(s: Sys, img: seq<byte>, id: MediaId, n: nat)
    requires HasDisk(s, img, id) && s.drive.status == Floppy.Ready && n < Sectors(id)
    ensures n / SectorsPerTrack(id) < 160 && n % SectorsPerTrack(id) < SectorsPerTrack(id)
    ensures var a := Aim(s.drive, n % SectorsPerTrack(id), n / SectorsPerTrack(id));
            && FloppyTransfer.Aimed(a)
            && 512 * n + 512 <= |img|
            && FloppyTransfer.SectorAt(a, a.targetSector) == img[512 * n..512 * n + 512]
  {
    hide Floppy.SectorOffset, TrackRegister;
    SectorIsLinear(id, n);
    var a := Aim(s.drive, n % SectorsPerTrack(id), n / SectorsPerTrack(id));
    assert a.targetSector == n % SectorsPerTrack(id) && a.targetTrack == TrackRegister(n / SectorsPerTrack(id));
    Floppy.SectorOffsetInside(a.targetTrack / 128, a.targetTrack % 128, a.targetSector, a.media);
    assert s.drive.disk[512 * n..512 * n + 512] == img[512 * n..512 * n + 512];
  }

  // ------------------------------------------------------------------ banks of RAM

  /** A word of bank $80, as the processor loads it with a long address. */
  method LoadLong(m: Machine, a: word) returns (w: word)
    requires m.Valid() && a < 0xFFFF
    ensures w == WordAt(Bank(m.State().mem, 0), a)
  {
    var lo, p := m.mem.Read(0x80_0000 + a);
    var hi, q := m.mem.Read(0x80_0000 + a + 1);
    assert Resolve(0x80_0000 + a, m.mem.stackBank) == Ram(a);
    assert Resolve(0x80_0000 + a + 1, m.mem.stackBank) == Ram(a + 1);
    w := Word(lo, hi);
  }

  /** Another bank, and every place of the same bank the data does not cover, stay the same. */
  lemma OtherPlaces(s: Sys, t: Sys, bank: byte, x: word, data: seq<byte>, c: nat, lo: nat, hi: nat)
    requires DataRead(s, t, bank, x, data) && c < 16 && lo <= hi <= BANK_SIZE
    requires c != bank - 0x80 || (x + |data| <= BANK_SIZE && (hi <= x || x + |data| <= lo))
    ensures Bank(t.mem, c)[lo..hi] == Bank(s.mem, c)[lo..hi]
  {
    BankOfLoaded(s.mem, bank - 0x80, x, data, c);
  }

  lemma ThisPlace(s: Sys, t: Sys, bank: byte, x: word, data: seq<byte>)
    requires DataRead(s, t, bank, x, data) && x + |data| <= BANK_SIZE
    ensures Bank(t.mem, bank - 0x80)[x..x + |data|] == data
  {
    BankOfLoaded(s.mem, bank - 0x80, x, data, bank - 0x80);
  }

  /** Where both loaders keep the master block. */
  const FSMB: word := 0x9800

  /** The master block is in RAM. */
  predicate MasterInRam(s: Sys, img: seq<byte>, id: MediaId) {
    Ok(s) && Elfs.Sized(img, id) && Bank(s.mem, 0)[FSMB..FSMB + 512] == MasterOf(img, id)
  }

  // ------------------------------------------------------------------ the steps both loaders take

  /** Channel 1 set up for a sector: the count, the banks and the two addresses. */
  predicate ChannelSet(c: Channel, bank: byte, x: word) {
    c.dst == x && c.src == 0x702B && c.lcount == 512 && c.dstBank == bank && c.srcBank == 0x70
  }

  /** Channel 1 programmed by four word stores. */
  method SetChannel(m: Machine, bank: byte, x: word)
    requires m.Valid() && RamBank(bank)
    modifies m.Devices(), m.Memories()
    ensures m.Valid()
    ensures m.State() == Programmed(old(m.State()), bank, x)
  {
    hide IoOut, IoWord, Floppy.Inv, Machine.State, Machine.Valid;
    DmaWords(m.State(), x);
    StoreWord(m, 0x705C, x);
    DmaWords(m.State(), 0x0200);
    StoreWord(m, 0x705A, 0x0200);
    DmaWords(m.State(), 0x7000 + bank);
    StoreWord(m, 0x7058, 0x7000 + bank);
    DmaWords(m.State(), 0x702B);
    StoreWord(m, 0x705E, 0x702B);
  }

  function Programmed(s: Sys, bank: byte, x: word): (r: Sys)
    requires Ok(s)
    ensures Ok(r) && ChannelSet(r.ch[1], bank, x)
    ensures DmaIdle(s) ==> DmaIdle(r)
  {
    var c := s.ch[1].(dst := x, lcount := 512, count := 512, dstBank := bank, srcBank := 0x70, src := 0x702B);
    s.(ch := s.ch[1 := c])
  }

  lemma AimKeeps(d: Floppy.Drive, sect: word, trk: word)
    ensures var a := Aim(d, sect, trk); a.disk == d.disk && a.media == d.media && a.status == d.status
  {
  }

  /** Setting the sector and track registers by words; the high byte of the second goes to the data
      port, which ignores it unless a write is under way. */
  lemma AimWords(s: Sys, sect: word, trk: word)
    requires Ok(s) && s.drive.status != Floppy.Writing
    ensures Ok(s.(drive := Aim(s.drive, sect, trk)))
    ensures IoWord(IoWord(s, 41, sect), 42, TrackRegister(trk)) == s.(drive := Aim(s.drive, sect, trk))
  {
  }

  /** The drive has gone on to the next sector of its track by itself. */
  predicate Advanced(d: Floppy.Drive, r: Floppy.Drive)
    requires d.media != Floppy.NoDisk
  {
    r.targetTrack == d.targetTrack && r.targetSector == Floppy.NextSector(d)
  }

  /** The drive's answer to a read command, once waited for. */
  lemma ReadAnswer(d: Floppy.Drive, b: byte, ds: seq<nat>)
    requires Floppy.Inv(d) && d.status == Floppy.Ready && b % 4 == 1
    requires !Floppy.Busy(FloppyRuns.Ticks(Floppy.WritePort(d, 0, b), ds).status)
    ensures var r := FloppyRuns.Ticks(Floppy.WritePort(d, 0, b), ds);
            && r.disk == d.disk && r.media == d.media
            && (!FloppyTransfer.Aimed(d) ==> r.status == Floppy.Error && r.error == Floppy.SeekFault(d.media))
            && (FloppyTransfer.Aimed(d) ==> r.status == Floppy.Reading && r.sectorOffset == 0
                                            && r.buffer[..512] == FloppyTransfer.SectorAt(d, d.targetSector)
                                            && Advanced(d, r))
  {
    hide Floppy.WritePort, FloppyRuns.Ticks, Floppy.SeekDone, FloppyTransfer.SectorAt, FloppyTransfer.Offset;
    var d1 := Floppy.WritePort(d, 0, b);
    FloppyTransfer.WaitShows(d1, ds);
    if FloppyTransfer.Aimed(d) {
      FloppyTransfer.ReadCommand(d, b);
      assert Splice(d.buffer, 0, FloppyTransfer.SectorAt(d, d.targetSector))[..512]
          == FloppyTransfer.SectorAt(d, d.targetSector);
    } else {
      FloppyTransfer.ReadCommandFails(d, b);
    }
  }

  /** A command that acknowledges an error works as if there had been none. */
  lemma Acknowledged(d: Floppy.Drive, b: byte)
    requires Floppy.Inv(d) && (d.status == Floppy.Error ==> b / 64 % 2 == 1)
    ensures Floppy.Inv(Floppy.ClearError(d))
    ensures Floppy.WritePort(d, 0, b) == Floppy.WritePort(Floppy.ClearError(d), 0, b)
  {
    hide Floppy.StartRead, Floppy.StartWrite, Floppy.StartSeek;
  }

  /** Start the read and poll the status port: the poll always ends, and never with an error. If the
      registers address a sector of the medium the drive then holds that sector, otherwise it is in
      its error state. */
  method SeekAndWait(m: Machine, b: byte) returns (failed: bool)
    requires m.Valid() && Idle(m.State()) && b % 4 == 1
    requires m.State().drive.status == Floppy.Error ==> b / 64 % 2 == 1
    modifies m.Devices(), m.Memories()
    ensures m.Valid() && m.State() == old(m.State()).(drive := m.drive.State())
    ensures !failed && Answered(Floppy.ClearError(old(m.drive.State())), m.drive.State())
  {
    hide Floppy.WritePort, FloppyTransfer.Aimed, FloppyRuns.Ticks, StoreAt, Floppy.Inv, FloppyTransfer.SectorAt;
    ghost var s := m.State();
    StartsSeek(s, b);
    m.StoreByte(0x7028, b);
    var ms: nat :| ms > 0;
    ghost var ds;
    failed, ds := m.drive.AwaitIdle(ms);
    Acknowledged(s.drive, b);
    ReadAnswer(Floppy.ClearError(s.drive), b, ds);
  }

  /** The sector the drive was aimed at is in its buffer, ready to be read out; or there is no such
      sector, and the drive has an error to report. */
  predicate Answered(d: Floppy.Drive, r: Floppy.Drive)
    requires Floppy.Inv(d) && Floppy.Inv(r)
  {
    && r.disk == d.disk && r.media == d.media
    && if FloppyTransfer.Aimed(d) then
         && r.status == Floppy.Reading && r.sectorOffset == 0
         && r.buffer[..512] == FloppyTransfer.SectorAt(d, d.targetSector)
         && Advanced(d, r)
       else r.status == Floppy.Error && r.error == Floppy.SeekFault(d.media)
  }

  /** From `s` to `t` what was read is 512 copies of an error code, and the drive still has the error. */
  predicate FaultRead(s: Sys, t: Sys, bank: byte, x: word, code: byte) {
    && Ok(s) && Ok(t) && DmaIdle(t) && RamBank(bank)
    && t.mem == Loaded(s.mem, bank - 0x80, x, seq(512, _ => code))
    && t.stackBank == s.stackBank && t.env == s.env
    && t.drive.disk == s.drive.disk && t.drive.media == s.drive.media
    && t.drive.status == Floppy.Error && t.drive.error == code
  }

  /** Start channel 1 on what the drive's data port hands out and wait for it. */
  method Transfer(m: Machine, bank: byte, x: word)
    requires m.Valid() && DmaIdle(m.State()) && RamBank(bank) && ChannelSet(m.State().ch[1], bank, x)
    requires Serving(m.State().drive)
    modifies m.Devices(), m.Memories()
    ensures m.Valid()
    ensures old(m.State()).drive.status == Floppy.Reading ==>
              DataRead(old(m.State()), m.State(), bank, x, old(m.State()).drive.buffer[..512])
    ensures old(m.State()).drive.status == Floppy.Error ==>
              FaultRead(old(m.State()), m.State(), bank, x, old(m.State()).drive.error)
    ensures m.drive.targetTrack == old(m.drive.targetTrack) && m.drive.targetSector == old(m.drive.targetSector)
  {
    hide StoreAt, Loaded, AfterBytes, Floppy.Inv, WriteReg, SectorJob, Serving, HandedOut;
    ghost var s := m.State();
    StartsJob(s, 0x94);
    SectorJobStarts(s.ch[1], bank, x);
    m.StoreByte(0x7050, 0x94);
    ghost var s2 := m.State();
    ghost var j := s2.ch[1];
    JobItself(s.ch[1], bank, x);
    AwaitTransfer(m, j);
    TransferGives(s, s2, m.State(), j);
  }

  lemma JobItself(c: Channel, bank: byte, x: word)
    ensures var j := SectorJob(c, bank, x);
            j == SectorJob(j, j.dstBank, j.dst) && j.dstBank == bank && j.dst == x
  {
  }

  /** The two phases together. The error a program polls for never shows: if there is no sector at the
      address, it goes on and reads the error code 512 times. */
  method SeekAndTransfer(m: Machine, b: byte, bank: byte, x: word) returns (failed: bool)
    requires m.Valid() && Idle(m.State()) && RamBank(bank) && b % 4 == 1
    requires m.State().drive.status == Floppy.Error ==> b / 64 % 2 == 1
    requires ChannelSet(m.State().ch[1], bank, x)
    modifies m.Devices(), m.Memories()
    ensures m.Valid() && !failed
    ensures var d := Floppy.ClearError(old(m.State()).drive);
            if FloppyTransfer.Aimed(d) then
              && DataRead(old(m.State()), m.State(), bank, x, FloppyTransfer.SectorAt(d, d.targetSector))
              && Advanced(d, m.State().drive)
            else FaultRead(old(m.State()), m.State(), bank, x, Floppy.SeekFault(d.media))
  {
    hide FloppyTransfer.Aimed, Loaded, Floppy.Inv, FloppyTransfer.SectorAt;
    failed := SeekAndWait(m, b);
    if !failed {
      Transfer(m, bank, x);
    }
  }

  lemma StartsSeek(s: Sys, b: byte)
    requires Ok(s)
    ensures StoreAt(s, 0x7028, b) == s.(drive := Floppy.WritePort(s.drive, 0, b))
  {
    hide Floppy.WritePort, Floppy.Inv;
  }

  lemma StartsJob(s: Sys, v: byte)
    requires Ok(s)
    ensures StoreAt(s, 0x7050, v) == s.(ch := s.ch[1 := WriteReg(s.ch[1], 0, v)])
  {
    hide WriteReg, Floppy.Inv;
  }

  lemma TransferGives(s: Sys, s2: Sys, t: Sys, j: Channel)
    requires Ok(s) && DmaIdle(s) && Ok(s2) && Ok(t) && RamBank(j.dstBank) && Started(j) && Length(j) == 512
    requires s2.mem == s.mem && s2.stackBank == s.stackBank && s2.env == s.env
    requires s2.ch == s.ch[1 := j]
    requires s2.drive.disk == s.drive.disk && s2.drive.media == s.drive.media
    requires Serving(s2.drive) && Transferred(s2, t, j, 512)
    ensures s2.drive.status == Floppy.Reading ==> DataRead(s, t, j.dstBank, j.dst, s2.drive.buffer[..512])
    ensures s2.drive.status == Floppy.Error ==> FaultRead(s, t, j.dstBank, j.dst, s2.drive.error)
    ensures t.drive.targetTrack == s2.drive.targetTrack && t.drive.targetSector == s2.drive.targetSector
  {
    AdvanceIsOneMore(j, 511);
    assert Served(s2.drive)[..512] == Served(s2.drive);
  }

  /** Two reads to consecutive addresses are one longer read. */
  lemma ReadTwice(s: Sys, u: Sys, t: Sys, bank: byte, x: word, data: seq<byte>, more: seq<byte>)
    requires DataRead(s, u, bank, x, data) && |data| + |more| <= BANK_SIZE
    requires DataRead(u, t, bank, Plus(x, |data|), more)
    ensures DataRead(s, t, bank, x, data + more)
  {
    var b := bank - 0x80;
    BankOfLoaded(s.mem, b, x, data, b);
    LaidTwice(Bank(s.mem, b), x, data, more);
    SpliceTwice(s.mem.ram, b * BANK_SIZE, Laid(Bank(s.mem, b), x, data), Laid(Bank(s.mem, b), x, data + more));
  }

  /** A chunk is its two sectors. */
  lemma ChunkIsTwoSectors(img: seq<byte>, id: MediaId, c: nat)
    requires Elfs.Sized(img, id) && 1 <= c < Chunks(id)
    ensures var n := FirstSector(id, c);
            && 0 < n && 512 * n + 1024 <= |img|
            && ChunkAt(img, id, c) == img[512 * n..512 * n + 512] + img[512 * (n + 1)..512 * (n + 1) + 512]
  {
    ChunkSectors(id, c);
  }

  /** A sector of the chunk table, as bytes and as words. */
  lemma TableSector(img: seq<byte>, id: MediaId, i: nat, cache: seq<byte>, k: nat)
    requires Elfs.Sized(img, id) && i < TableSectors(id) && k < 256
    requires 512 * (i + 2) + 512 <= |img| && cache == img[512 * (i + 2)..512 * (i + 2) + 512]
    ensures WordAt(cache, 2 * k) == TableOf(img, id)[256 * i + k]
  {
    assert TableOf(img, id)[256 * i + k] == WordAt(TableBytes(img, id), 2 * (256 * i + k));
  }

  // ------------------------------------------------------------------ whole files

  /** The chunks of a chain, one after the other. */
  function ChainData(img: seq<byte>, id: MediaId, cs: seq<nat>): (data: seq<byte>)
    requires Elfs.Sized(img, id) && forall i :: 0 <= i < |cs| ==> 1 <= cs[i] < Chunks(id)
    ensures |data| == 1024 * |cs|
  {
    if cs == [] then [] else ChainData(img, id, cs[..|cs| - 1]) + ChunkAt(img, id, cs[|cs| - 1])
  }

  lemma {:induction false} ChainDataAt(img: seq<byte>, id: MediaId, cs: seq<nat>, j: nat)
    requires Elfs.Sized(img, id) && forall i :: 0 <= i < |cs| ==> 1 <= cs[i] < Chunks(id)
    requires j < 1024 * |cs|
    ensures j / 1024 < |cs| && ChainData(img, id, cs)[j] == ChunkAt(img, id, cs[j / 1024])[j % 1024]
    decreases |cs|
  {
    if j < 1024 * (|cs| - 1) {
      ChainDataAt(img, id, cs[..|cs| - 1], j);
    }
  }

  /** The chunks of a stored file start with its content. */
  lemma StoredContent(img: seq<byte>, id: MediaId, f: File)
    requires Elfs.Sized(img, id) && Stored(img, id, f)
    ensures forall i :: 0 <= i < |f.chain| ==> 1 <= f.chain[i] < Chunks(id)
    ensures f.content <= ChainData(img, id, f.chain)
  {
    var data := ChainData(img, id, f.chain);
    forall j | 0 <= j < |f.content|
      ensures j < |data| && data[j] == f.content[j]
    {
      ChainDataAt(img, id, f.chain, j);
      PieceByte(f.content, j);
      assert Piece(f.content, j / 1024) <= ChunkAt(img, id, f.chain[j / 1024]);
    }
  }

  lemma PieceByte(content: seq<byte>, j: nat)
    requires j < |content|
    ensures j % 1024 < |Piece(content, j / 1024)| && Piece(content, j / 1024)[j % 1024] == content[j]
  {
  }

  // ------------------------------------------------------------------ what both loaders rely on

  lemma QuietReady(s: Sys)
    requires Quiet(s)
    ensures Ok(s) && s.drive.status == Floppy.Ready && Idle(s)
    ensures Floppy.ClearError(s.drive) == s.drive
  {
  }

  lemma QuietAfter(s: Sys, t: Sys, bank: byte, x: word, data: seq<byte>)
    requires DataRead(s, t, bank, x, data)
    ensures Quiet(t)
  {
  }

  /** Programming the channel and the registers is not visible in what the read leaves. */
  lemma SetupUnseen(s: Sys, s2: Sys, t: Sys, bank: byte, x: word, a: Floppy.Drive)
    requires Ok(s) && FloppyTransfer.Aimed(a) && s2.mem == s.mem && s2.stackBank == s.stackBank && s2.env == s.env
    requires s2.drive.disk == s.drive.disk && s2.drive.media == s.drive.media
    requires DataRead(s2, t, bank, x, FloppyTransfer.SectorAt(a, a.targetSector))
    ensures DataRead(s, t, bank, x, FloppyTransfer.SectorAt(a, a.targetSector))
  {
  }

  lemma ChainStep(t: seq<word>, n: nat, cs: seq<nat>, i: nat)
    requires IsChain(t, n, cs) && i < |cs| && n < BAD
    ensures cs[i] < n && t[cs[i]] == if i + 1 < |cs| then cs[i + 1] else END
    ensures i + 1 < |cs| ==> cs[i + 1] != END
  {
  }

  lemma NothingLaid(start: seq<byte>, dst: word, img: seq<byte>, id: MediaId, cs: seq<nat>)
    requires |start| == BANK_SIZE && Elfs.Sized(img, id)
    ensures Laid(start, dst, ChainData(img, id, cs[..0])) == start
  {
  }

  /** Reading the next chunk of a chain behind the earlier ones. */
  lemma NextLaid(s: Sys, t: Sys, start: seq<byte>, bank: byte, dst: word, img: seq<byte>, id: MediaId,
                 cs: seq<nat>, i: nat)
    requires |start| == BANK_SIZE && Elfs.Sized(img, id) && i < |cs| <= 64 && RamBank(bank)
    requires forall i :: 0 <= i < |cs| ==> 1 <= cs[i] < Chunks(id)
    requires Ok(s) && Bank(s.mem, bank - 0x80) == Laid(start, dst, ChainData(img, id, cs[..i]))
    requires DataRead(s, t, bank, Plus(dst, 1024 * i), ChunkAt(img, id, cs[i]))
    ensures Bank(t.mem, bank - 0x80) == Laid(start, dst, ChainData(img, id, cs[..i + 1]))
  {
    BankOfLoaded(s.mem, bank - 0x80, Plus(dst, 1024 * i), ChunkAt(img, id, cs[i]), bank - 0x80);
    assert cs[..i + 1][..i] == cs[..i];
    LaidTwice(start, dst, ChainData(img, id, cs[..i]), ChunkAt(img, id, cs[i]));
  }

  lemma FaultUnseen(s: Sys, s2: Sys, t: Sys, bank: byte, x: word, code: byte)
    requires Ok(s) && s2.mem == s.mem && s2.stackBank == s.stackBank && s2.env == s.env
    requires s2.drive.disk == s.drive.disk && s2.drive.media == s.drive.media
    requires FaultRead(s2, t, bank, x, code)
    ensures FaultRead(s, t, bank, x, code)
  {
  }
}
