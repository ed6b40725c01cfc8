/** Storing sectors and chunks under DOS: DMA channel 1 carries 512 bytes of a RAM bank to the drive's
    data port. What was stored is what is loaded again; a protected disk keeps what it had, and DOS
    does not notice. */
module DosStore {
  import opened Bytes
  import opened Memory
  import opened Dma
  import opened Machine
  import opened SectorLoad
  import opened Elfs
  import opened DiskRead
  import Floppy
  import FloppyRuns
  import FloppyTransfer
  import FloppyPorts
  import Dos
  import ElfsSteps

  // ------------------------------------------------------------------ one cycle

  /** Channel 1 set up for storing a sector. */
  predicate StoreSet(c: Channel, bank: byte, x: word) {
    c.src == x && c.dst == 0x702B && c.lcount == 512 && c.srcBank == bank && c.dstBank == 0x70
  }

  /** The job of moving 512 bytes of a RAM bank to the drive's data port. */
  predicate StoreJob(j: Channel) {
    && Started(j) && Length(j) == 512 && DstFixed(j) && !SrcFixed(j)
    && j.dst == 0x702B && j.dstBank == 0x70 && RamBank(j.srcBank)
  }

  lemma StoreJobStarts(c: Channel, bank: byte, x: word)
    requires StoreSet(c, bank, x) && RamBank(bank)
    ensures var j := WriteReg(c, 0, 0x98); StoreJob(j) && j.src == x && j.srcBank == bank
  {
  }

  /** `n` bytes of a RAM bank from an address on, around the end of the bank. */
  function Outgoing(m: Mem, bank: byte, x: word, n: nat): (data: seq<byte>)
    requires Memory.Sized(m) && RamBank(bank) && n <= BANK_SIZE
    ensures |data| == n
  {
    seq(n, i requires 0 <= i < n => Bank(m, bank - 0x80)[Plus(x, i)])
  }

  lemma RamByte(m: Mem, bank: byte, a: word)
    requires Memory.Sized(m) && RamBank(bank)
    ensures (bank - 0x80) * BANK_SIZE + a < RAM_SIZE
    ensures Get(m, Ram((bank - 0x80) * BANK_SIZE + a)) == Bank(m, bank - 0x80)[a]
  {
  }

  /** The cells of the i-th byte of a store job. */
  lemma StoreCells(j: Channel, stackBank: byte, i: nat)
    requires StoreJob(j) && i < 512
    ensures SrcCell(AfterBytes(j, i)) == Ram((j.srcBank - 0x80) * BANK_SIZE + Plus(j.src, i))
    ensures DstCell(AfterBytes(j, i), stackBank) == Port(43)
  {
    hide ResolveTransparent, AfterBytes, SrcCell, DstCell, Plus;
    CellsOfByte(j, stackBank, i);
    DataPortCell();
    InRamBank(j.srcBank, Plus(j.src, i));
  }

  /** A channel copying to the data port of the drive. */
  lemma CopyToDrive(s: Sys, k: nat, x: Cell)
    requires Ok(s) && k < 4 && Enabled(s.ch[k]) && Copying(s.ch[k])
    requires DstCell(s.ch[k], s.stackBank) == Port(43) && SrcCell(s.ch[k]) == x && x.Ram?
    ensures CopyByte(s, k) == s.(drive := Floppy.WritePort(s.drive, 3, Get(s.mem, x)),
                                 ch := s.ch[k := Advance(s.ch[k])])
  {
    hide Advance, Floppy.WritePort;
  }

  /** One cycle of a store: the next byte of the bank goes to the drive's data port. */
  lemma StoreCycle(s: Sys, j: Channel, i: nat)
    requires Ok(s) && i < 512 && StoreJob(j) && s.ch[1] == AfterBytes(j, i)
    requires !Copying(s.ch[0]) && !Copying(s.ch[2]) && !Copying(s.ch[3])
    ensures DmaCycle(s) == s.(drive := Floppy.WritePort(s.drive, 3, Outgoing(s.mem, j.srcBank, j.src, 512)[i]),
                              ch := s.ch[1 := AfterBytes(j, i + 1)])
  {
    hide Floppy.Inv, Floppy.WritePort, Get, Advance, AfterBytes, SrcCell, DstCell, Fetch, StoreAt, Bank;
    AdvanceIsOneMore(j, i);
    StoreCells(j, s.stackBank, i);
    RamByte(s.mem, j.srcBank, Plus(j.src, i));
    CopyToDrive(s, 1, Ram((j.srcBank - 0x80) * BANK_SIZE + Plus(j.src, i)));
  }

  // ------------------------------------------------------------------ 512 bytes

  /** A drive that takes a sector, or has an error and takes nothing. */
  predicate Taking(d: Floppy.Drive) {
    (d.status == Floppy.Writing && d.sectorOffset == 0) || d.status == Floppy.Error
  }

  /** After `i` bytes of `data`, and any time in between: the bytes are in the buffer, or with the last of
      them on the disk; a drive with an error is as it was. */
  predicate TakenIn(d: Floppy.Drive, e: Floppy.Drive, data: seq<byte>, i: nat)
    requires Floppy.Inv(d) && |data| == 512 && i <= 512
  {
    && Floppy.Inv(e)
    && if d.status == Floppy.Error then FloppyTransfer.Visible(e) == FloppyTransfer.Visible(d)
       else if i < 512 then
         FloppyTransfer.Visible(e)
         == FloppyTransfer.Visible(d).(buffer := Splice(d.buffer, 0, data[..i]), sectorOffset := i)
       else OnDisk(d, e, data)
  }

  predicate OnDisk(d: Floppy.Drive, e: Floppy.Drive, data: seq<byte>)
    requires Floppy.Inv(d) && |data| == 512
  {
    && d.diskOffset + 512 <= |d.disk| && e.disk == Splice(d.disk, d.diskOffset, data)
    && e.media == d.media && e.targetTrack == d.targetTrack
    && (e.status == Floppy.DiskWrite || e.status == Floppy.Ready)
  }

  lemma NextTakenIn(d: Floppy.Drive, e: Floppy.Drive, data: seq<byte>, i: nat)
    requires Floppy.Inv(d) && Taking(d) && |data| == 512 && i < 512 && TakenIn(d, e, data, i)
    ensures TakenIn(d, Floppy.WritePort(e, 3, data[i]), data, i + 1)
  {
    if d.status != Floppy.Error {
      assert Splice(d.buffer, 0, data[..i])[i := data[i]] == Splice(d.buffer, 0, data[..i + 1]);
      if i == 511 {
        assert data[..512] == data;
        LastTakenIn(d, e, data);
      }
    }
  }

  lemma LastTakenIn(d: Floppy.Drive, e: Floppy.Drive, data: seq<byte>)
    requires Floppy.Inv(d) && Floppy.Inv(e) && d.status == Floppy.Writing && |data| == 512
    requires FloppyTransfer.Visible(e)
          == FloppyTransfer.Visible(d).(buffer := Splice(d.buffer, 0, data[..511]), sectorOffset := 511)
    ensures OnDisk(d, Floppy.WritePort(e, 3, data[511]), data)
  {
    assert e.buffer[511 := data[511]][..512] == data;
  }

  /** Time passing changes nothing but the end of the last write. */
  lemma TakenInIdle(d: Floppy.Drive, e: Floppy.Drive, data: seq<byte>, i: nat, ms: nat)
    requires Floppy.Inv(d) && Taking(d) && |data| == 512 && i <= 512 && TakenIn(d, e, data, i)
    ensures TakenIn(d, Floppy.Tick(e, ms), data, i)
  {
    hide Splice;
    if !Floppy.Busy(e.status) {
      IdleTick(e, ms);
    }
  }

  lemma NothingTakenIn(d: Floppy.Drive, data: seq<byte>)
    requires Floppy.Inv(d) && Taking(d) && |data| == 512
    ensures TakenIn(d, d, data, 0)
  {
    assert Splice(d.buffer, 0, data[..0]) == d.buffer;
  }

  /** What a store leaves after `i` cycles: memory as it was, the channel advanced, the drive so far. */
  ghost predicate Sent(s: Sys, t: Sys, j: Channel, data: seq<byte>, i: nat)
    requires Ok(s) && StoreJob(j) && i <= 512 && |data| == 512
  {
    Ok(t) && t == s.(drive := t.drive, ch := s.ch[1 := AfterBytes(j, i)]) && TakenIn(s.drive, t.drive, data, i)
  }

  lemma SendStep(s: Sys, t: Sys, j: Channel, data: seq<byte>, i: nat)
    requires Ok(s) && StoreJob(j) && i < 512 && Taking(s.drive)
    requires data == Outgoing(s.mem, j.srcBank, j.src, 512) && Sent(s, t, j, data, i)
    requires !Copying(s.ch[0]) && !Copying(s.ch[2]) && !Copying(s.ch[3])
    ensures Sent(s, DmaCycle(t), j, data, i + 1)
  {
    hide AfterBytes, DmaCycle, Outgoing, TakenIn, Floppy.WritePort, Floppy.Inv;
    StoreCycle(t, j, i);
    NextTakenIn(s.drive, t.drive, data, i);
  }

  lemma SentIdle(s: Sys, t: Sys, u: Sys, j: Channel, data: seq<byte>, i: nat, ms: nat)
    requires Ok(s) && StoreJob(j) && i <= 512 && |data| == 512 && Taking(s.drive) && Sent(s, t, j, data, i)
    requires Ok(u) && u == t.(drive := Floppy.Tick(t.drive, ms))
    ensures Sent(s, u, j, data, i)
  {
    hide AfterBytes, TakenIn, Floppy.Tick, Floppy.Inv;
    TakenInIdle(s.drive, t.drive, data, i, ms);
  }

  /** Waiting for channel 1 to finish a store job, however the drive's clock ticks meanwhile. */
  method AwaitStore(m: Machine, ghost j: Channel)
    requires m.Valid() && StoreJob(j) && m.State().ch[1] == j && Taking(m.State().drive)
    requires !Copying(m.State().ch[0]) && !Copying(m.State().ch[2]) && !Copying(m.State().ch[3])
    modifies m.Devices(), m.Memories()
    ensures m.Valid()
    ensures Sent(old(m.State()), m.State(), j, Outgoing(old(m.State()).mem, j.srcBank, j.src, 512), 512)
  {
    hide DmaCycle, Floppy.Inv, TakenIn, Outgoing, Taking;
    ghost var s, i := m.State(), 0;
    ghost var data := Outgoing(s.mem, j.srcBank, j.src, 512);
    NoBytes(j);
    NothingTakenIn(s.drive, data);
    assert s.ch[1 := j] == s.ch;
    while m.ch1.status / 128 % 2 == 1
      invariant m.Valid() && i <= 512 && Sent(s, m.State(), j, data, i)
      invariant Copying(m.State().ch[1]) <==> i < 512
      decreases 512 - i
    {
      AdvanceIsOneMore(j, i);
      SendStep(s, m.State(), j, data, i);
      m.RunDma();
      ghost var t := m.State();
      var ms: nat := *;
      m.drive.Elapse(ms);
      SentIdle(s, t, m.State(), j, data, i + 1, ms);
      i := i + 1;
    }
  }

  // ------------------------------------------------------------------ a sector

  /** No DMA running, and the drive not at work on anything but the last sector it was given. */
  predicate StoreReady(s: Sys) {
    Ok(s) && DmaIdle(s) && s.drive.status in {Floppy.Ready, Floppy.Error, Floppy.DiskWrite}
  }

  /** From `s` to `t` nothing but the drive's disk may have changed. */
  predicate OnlyDisk(s: Sys, t: Sys) {
    && Ok(s) && StoreReady(t) && t.mem == s.mem && t.stackBank == s.stackBank && t.env == s.env
    && t.drive.media == s.drive.media
  }

  /** A sector of the disk was replaced. */
  predicate SectorStored(s: Sys, t: Sys, off: nat, data: seq<byte>) {
    && OnlyDisk(s, t) && off + |data| <= |s.drive.disk| && t.drive.disk == Splice(s.drive.disk, off, data)
    && t.drive.status != Floppy.Error
  }

  /** The drive did not accept the command. */
  predicate StoreRefused(s: Sys, t: Sys) {
    OnlyDisk(s, t) && t.drive.disk == s.drive.disk && t.drive.status == Floppy.Error
  }

  /** Channel 1 programmed for a store: the banks are first written as for a load and then swapped. */
  method SetStoreChannel(m: Machine, bank: byte, x: word)
    requires m.Valid() && RamBank(bank)
    modifies m.Devices(), m.Memories()
    ensures m.Valid() && m.State() == Programmed(old(m.State()), bank, x)
  {
    hide IoOut, IoWord, Floppy.Inv, Machine.State, Machine.Valid, Lo, Hi;
    SwappedBanks(bank);
    DmaWords(m.State(), x);
    StoreWord(m, 0x705E, x);
    DmaWords(m.State(), 0x0200);
    StoreWord(m, 0x705A, 0x0200);
    DmaWords(m.State(), 0x7000 + bank);
    StoreWord(m, 0x7058, 0x7000 + bank);
    DmaWords(m.State(), 0x702B);
    StoreWord(m, 0x705C, 0x702B);
    SwapBanks(m, bank);
  }

  method SwapBanks(m: Machine, ghost bank: byte)
    requires m.Valid() && m.State().ch[1].dstBank == bank && m.State().ch[1].srcBank == 0x70
    modifies m.Devices(), m.Memories()
    ensures m.Valid()
    ensures var s := old(m.State());
            m.State() == s.(ch := s.ch[1 := s.ch[1].(dstBank := 0x70, srcBank := bank)])
  {
    hide IoIn, IoOut, IoWord, Floppy.Inv, Machine.State, Machine.Valid, Lo, Hi, Word;
    SwappedBanks(bank);
    BankPorts(m.State());
    var lo := m.InPort(88);
    var hi := m.InPort(89);
    DmaWords(m.State(), Word(hi, lo));
    StoreWord(m, 0x7058, Word(hi, lo));
  }

  function Programmed(s: Sys, bank: byte, x: word): (r: Sys)
    requires Ok(s)
    ensures Ok(r) && StoreSet(r.ch[1], bank, x) && r == s.(ch := r.ch)
    ensures DmaIdle(s) ==> DmaIdle(r)
  {
    var c := s.ch[1].(src := x, dst := 0x702B, lcount := 512, count := 512, dstBank := 0x70, srcBank := bank);
    s.(ch := s.ch[1 := c])
  }

  lemma SwappedBanks(bank: byte)
    ensures Lo(0x7000 + bank) == bank && Hi(0x7000 + bank) == 0x70
    ensures Lo(Word(0x70, bank)) == 0x70 && Hi(Word(0x70, bank)) == bank
  {
  }

  lemma BankPorts(s: Sys)
    requires Ok(s)
    ensures IoIn(s, 88) == (s, s.ch[1].dstBank) && IoIn(s, 89) == (s, s.ch[1].srcBank)
  {
  }

  /** A drive that has been waited for. */
  lemma Rested(d: Floppy.Drive, r: Floppy.Drive)
    requires Floppy.Inv(d) && d.status in {Floppy.Ready, Floppy.Error, Floppy.DiskWrite}
    requires FloppyTransfer.Visible(r) == FloppyTransfer.Visible(FloppyTransfer.Finished(d))
    ensures r.disk == d.disk && r.media == d.media && (r.status == Floppy.Ready || r.status == Floppy.Error)
  {
  }

  /** Waits for the drive to be ready. */
  method AwaitReady(m: Machine)
    requires m.Valid() && StoreReady(m.State())
    modifies m.Devices()
    ensures m.Valid() && Idle(m.State())
    ensures m.State() == old(m.State()).(drive := m.State().drive)
    ensures m.State().drive.disk == old(m.State()).drive.disk && m.State().drive.media == old(m.State()).drive.media
    ensures m.State().drive.status == Floppy.Error ==> old(m.State()).drive.status == Floppy.Error
  {
    hide Floppy.Inv, FloppyTransfer.Visible, FloppyTransfer.Finished;
    var ms: nat :| ms > 0;
    ghost var d := m.drive.State();
    var failed;
    ghost var ds;
    failed, ds := m.drive.AwaitIdle(ms);
    FloppyTransfer.WaitShows(d, ds);
    Rested(d, m.drive.State());
    StaysFine(d, m.drive.State());
  }

  lemma StaysFine(d: Floppy.Drive, r: Floppy.Drive)
    requires Floppy.Inv(d) && d.status in {Floppy.Ready, Floppy.Error, Floppy.DiskWrite}
    requires FloppyTransfer.Visible(r) == FloppyTransfer.Visible(FloppyTransfer.Finished(d))
    ensures r.status == Floppy.Error ==> d.status == Floppy.Error
  {
  }

  /** The drive can store a sector at the address in its registers. */
  predicate Storable(d: Floppy.Drive) { FloppyTransfer.Aimed(d) && !Floppy.WriteProtected(d.media) }

  /** The drive's answer to a write command, once waited for. */
  lemma WriteAnswer(d: Floppy.Drive, b: byte, ds: seq<nat>)
    requires Floppy.Inv(d) && d.status == Floppy.Ready && b % 4 == 2
    requires !Floppy.Busy(FloppyRuns.Ticks(Floppy.WritePort(d, 0, b), ds).status)
    ensures var r := FloppyRuns.Ticks(Floppy.WritePort(d, 0, b), ds);
            && r.disk == d.disk && r.media == d.media && Taking(r)
            && (r.status == Floppy.Error <==> !Storable(d))
            && (Storable(d) ==> r.diskOffset == FloppyTransfer.Offset(d, d.targetSector))
  {
    hide Floppy.WritePort, FloppyRuns.Ticks, Floppy.SeekDone, FloppyTransfer.Offset;
    var d1 := Floppy.WritePort(d, 0, b);
    FloppyTransfer.WaitShows(d1, ds);
    FloppyRuns.StepOnDisk(d, FloppyRuns.Write(0, b));
    FloppyPorts.CommandOutcome(d, b);
    if Storable(d) {
      FloppyTransfer.WriteCommand(d, b);
    }
  }

  /** Starts the write and polls the status port; no error shows. */
  method CommandWrite(m: Machine)
    requires m.Valid() && Idle(m.State())
    modifies m.Devices(), m.Memories()
    ensures m.Valid() && m.State() == old(m.State()).(drive := m.State().drive)
    ensures Accepted(Floppy.ClearError(old(m.State()).drive), m.State().drive)
  {
    hide Floppy.WritePort, FloppyRuns.Ticks, StoreAt, Floppy.Inv, Storable, Taking;
    ghost var s := m.State();
    StartsSeek(s, 0x42);
    m.StoreByte(0x7028, 0x42);
    var ms: nat :| ms > 0;
    var failed;
    ghost var ds;
    failed, ds := m.drive.AwaitIdle(ms);
    Acknowledged(s.drive, 0x42);
    WriteAnswer(Floppy.ClearError(s.drive), 0x42, ds);
  }

  predicate Accepted(d: Floppy.Drive, r: Floppy.Drive) {
    && r.disk == d.disk && r.media == d.media && Taking(r)
    && (r.status == Floppy.Error <==> !Storable(d))
    && (Storable(d) ==> r.diskOffset == FloppyTransfer.Offset(d, d.targetSector))
  }

  /** Where a store goes: the drive with the address in its registers. */
  function StoreAim(d: Floppy.Drive, sect: word, trk: word): Floppy.Drive {
    Dos.DosAim(d.(status := Floppy.Ready), sect, trk)
  }

  lemma AimIgnoresErrors(d: Floppy.Drive, r: Floppy.Drive, sect: word, trk: word)
    requires Floppy.Inv(d) && Floppy.Inv(r) && r.media == d.media
    requires r.status == Floppy.Ready || r.status == Floppy.Error
    ensures var a, b := StoreAim(d, sect, trk), Floppy.ClearError(Dos.DosAim(r, sect, trk));
            && (Storable(a) <==> Storable(b)) && b.disk == r.disk && b.media == r.media
            && FloppyTransfer.Offset(a, a.targetSector) == FloppyTransfer.Offset(b, b.targetSector)
  {
    hide Floppy.SectorOffset;
  }

  /** Stores 512 bytes from `x` in the I/O bank in the sector on the addressed track. If there is no such
      sector, or the disk is protected, nothing happens; it is not told either way. */
  method RawStoreSector(d: Dos.Dos, x: word) returns (err: bool)
    requires d.m.Valid() && StoreReady(d.m.State()) && RamBank(d.ioBank)
    modifies d.m.Devices(), d.m.Memories()
    ensures d.m.Valid() && !err
    ensures var s := old(d.m.State());
            var a := StoreAim(s.drive, d.loadSect, d.loadTrk);
            if Storable(a) then
              SectorStored(s, d.m.State(), FloppyTransfer.Offset(a, a.targetSector), Outgoing(s.mem, d.ioBank, x, 512))
            else StoreRefused(s, d.m.State())
  {
    hide Floppy.Inv, Machine.State, Machine.Valid, StoreAt, StoreSet, Storable, StoreAim, Dos.DosAim, Outgoing,
         FloppyTransfer.Offset, Taking, StoreJob, Sent, WriteReg;
    ghost var s := d.m.State();
    SetStoreChannel(d.m, d.ioBank, x);
    AwaitReady(d.m);
    ghost var s2 := d.m.State();
    d.SetRegisters();
    AimIgnoresErrors(s.drive, s2.drive, d.loadSect, d.loadTrk);
    AimStaysIdle(s2, d.m.State(), d.loadSect, d.loadTrk);
    CommandWrite(d.m);
    ghost var s4 := d.m.State();
    StartsJob(s4, 0x98);
    StoreJobStarts(s4.ch[1], d.ioBank, x);
    d.m.StoreByte(0x7050, 0x98);
    ghost var s5 := d.m.State();
    AwaitStore(d.m, s5.ch[1]);
    err := false;
    SentGives(s, s4, s5, d.m.State(), s5.ch[1], Outgoing(s.mem, d.ioBank, x, 512));
  }

  lemma AimStaysIdle(s: Sys, t: Sys, sect: word, trk: word)
    requires Idle(s) && Ok(t) && t == s.(drive := Dos.DosAim(s.drive, sect, trk))
    ensures Idle(t)
  {
  }

  lemma SentGives(s: Sys, s4: Sys, s5: Sys, t: Sys, j: Channel, data: seq<byte>)
    requires Ok(s) && Ok(s4) && DmaIdle(s4) && Ok(s5) && StoreJob(j) && |data| == 512
    requires s4 == s.(drive := s4.drive, ch := s4.ch) && s5 == s4.(ch := s4.ch[1 := j])
    requires s4.drive.disk == s.drive.disk && s4.drive.media == s.drive.media && Taking(s4.drive)
    requires Sent(s5, t, j, data, 512)
    ensures s4.drive.status != Floppy.Error ==> SectorStored(s, t, s4.drive.diskOffset, data)
    ensures s4.drive.status == Floppy.Error ==> StoreRefused(s, t)
  {
    AdvanceIsOneMore(j, 511);
  }

  // ------------------------------------------------------------------ sectors and chunks of an image

  /** The image after a store that a protected disk refuses. */
  function Rewritten(img: seq<byte>, off: nat, data: seq<byte>, wp: bool): (jmg: seq<byte>)
    requires off + |data| <= |img|
    ensures |jmg| == |img|
  {
    if wp then img else Splice(img, off, data)
  }

  /** With the quotient and remainder of a sector number, a store goes to the bytes of that sector. */
  lemma StoreAimsAt(s: Sys, img: seq<byte>, id: MediaId, n: nat)
    requires HasDisk(s, img, id) && n < Sectors(id)
    ensures n / SectorsPerTrack(id) < 160 && n % SectorsPerTrack(id) < SectorsPerTrack(id)
    ensures var a := StoreAim(s.drive, n % SectorsPerTrack(id), n / SectorsPerTrack(id));
            && (Storable(a) <==> !Floppy.WriteProtected(s.drive.media))
            && FloppyTransfer.Offset(a, a.targetSector) == 512 * n
  {
    hide Floppy.SectorOffset, TrackRegister;
    SectorIsLinear(id, n);
    var d := s.drive.(status := Floppy.Ready);
    Dos.DosAimIsAim(d, n % SectorsPerTrack(id), n / SectorsPerTrack(id));
    TrackIsEven(id);
    var a := Aim(d, n % SectorsPerTrack(id), n / SectorsPerTrack(id));
    assert a.targetSector == n % SectorsPerTrack(id) && a.targetTrack == TrackRegister(n / SectorsPerTrack(id));
  }

  lemma StoredOnImage(s: Sys, t: Sys, img: seq<byte>, id: MediaId, off: nat, data: seq<byte>)
    requires HasDisk(s, img, id) && off + |data| <= |img|
    requires if Floppy.WriteProtected(s.drive.media) then StoreRefused(s, t) else SectorStored(s, t, off, data)
    ensures OnlyDisk(s, t) && (t.drive.status == Floppy.Error <==> Floppy.WriteProtected(s.drive.media))
    ensures HasDisk(t, Rewritten(img, off, data, Floppy.WriteProtected(s.drive.media)), id)
  {
    var jmg := Rewritten(img, off, data, Floppy.WriteProtected(s.drive.media));
    assert forall i :: 0 <= i < |img| ==> jmg[i] == t.drive.disk[i];
  }

  /** Stores in a linear sector of the disk. */
  method StoreLinear(d: Dos.Dos, x: word, ghost n: nat, ghost img: seq<byte>, ghost id: MediaId)
    returns (err: bool)
    requires d.m.Valid() && StoreReady(d.m.State()) && HasDisk(d.m.State(), img, id) && RamBank(d.ioBank)
    requires n < Sectors(id) && d.loadTrk == n / SectorsPerTrack(id) && d.loadSect == n % SectorsPerTrack(id)
    modifies d.m.Devices(), d.m.Memories()
    ensures !err && d.m.Valid() && OnlyDisk(old(d.m.State()), d.m.State()) && 512 * n + 512 <= |img|
    ensures d.m.State().drive.status == Floppy.Error <==> Floppy.WriteProtected(old(d.m.State()).drive.media)
    ensures var s := old(d.m.State());
            HasDisk(d.m.State(), Rewritten(img, 512 * n, Outgoing(s.mem, d.ioBank, x, 512),
                                           Floppy.WriteProtected(s.drive.media)), id)
  {
    hide HasDisk, Machine.State, Machine.Valid, StoreAim, Storable, FloppyTransfer.Offset, Outgoing, OnlyDisk,
         StoreReady, SectorStored, StoreRefused, Rewritten;
    ghost var s := d.m.State();
    DiskSized(s, img, id, n);
    StoreAimsAt(s, img, id, n);
    err := RawStoreSector(d, x);
    StoredOnImage(s, d.m.State(), img, id, 512 * n, Outgoing(s.mem, d.ioBank, x, 512));
  }

  lemma DiskSized(s: Sys, img: seq<byte>, id: MediaId, n: nat)
    requires HasDisk(s, img, id) && n < Sectors(id)
    ensures Elfs.Sized(img, id) && 512 * n + 512 <= |img| && Ok(s)
  {
  }

  /** A chunk's two sectors rewritten one after the other are the chunk rewritten. */
  lemma TwoSectors(img: seq<byte>, id: MediaId, y: nat, n: nat, m: Mem, bank: byte, x: word, wp: bool)
    requires Elfs.Sized(img, id) && 1 <= y < Chunks(id) && n == FirstSector(id, y)
    requires Memory.Sized(m) && RamBank(bank)
    ensures 512 * n + 1024 <= |img| && ChunkOffset(id, y) + 1024 <= |img|
    ensures Rewritten(Rewritten(img, 512 * n, Outgoing(m, bank, x, 512), wp), 512 * (n + 1),
                      Outgoing(m, bank, Plus(x, 0x0200), 512), wp)
         == Rewritten(img, ChunkOffset(id, y), Outgoing(m, bank, x, 1024), wp)
  {
    hide Bank;
    ChunkSectors(id, y);
    ChunkInside(id, y);
  }

  /** The chunk of the image is rewritten unless the disk is protected, and then the drive has an error. */
  predicate ChunkStored(s: Sys, t: Sys, img: seq<byte>, id: MediaId, bank: byte, x: word, y: nat) {
    && OnlyDisk(s, t) && Elfs.Sized(img, id) && RamBank(bank) && ChunkOffset(id, y) + 1024 <= |img|
    && HasDisk(t, Rewritten(img, ChunkOffset(id, y), Outgoing(s.mem, bank, x, 1024),
                            Floppy.WriteProtected(s.drive.media)), id)
    && (t.drive.status == Floppy.Error <==> Floppy.WriteProtected(s.drive.media))
  }

  /** Stores 1024 bytes from `x` in the I/O bank in a chunk. */
  method StoreChunk(d: Dos.Dos, x: word, y: word, ghost img: seq<byte>, ghost id: MediaId) returns (err: bool)
    requires d.m.Valid() && Dos.Paged(d.m.State(), img, id) && 1 <= y < Chunks(id) && RamBank(d.ioBank)
    modifies d`loadTrk, d`loadSect, d.m.Devices(), d.m.Memories()
    ensures !err && d.m.Valid()
    ensures ChunkStored(old(d.m.State()), d.m.State(), img, id, d.ioBank, x, y)
  {
    hide HasDisk, Quiet, Dos.Paged, Machine.State, Machine.Valid, Outgoing, OnlyDisk, StoreReady, Rewritten,
         FirstSector, SectorsPerTrack, RamBank, ChunkStored, Floppy.WriteProtected;
    ghost var s, n := d.m.State(), FirstSector(id, y);
    Dos.PagedFacts(s, img, id);
    QuietIsReady(s);
    ChunkSectors(id, y);
    SecondSectorSameTrack(id, n);
    TrackIsEven(id);
    d.ConvChunk(y, img, id);
    err := StoreLinear(d, x, n, img, id);
    ghost var u := d.m.State();
    OnlyDiskGives(s, u);
    ghost var wp := Floppy.WriteProtected(s.drive.media);
    ghost var half := Rewritten(img, 512 * n, Outgoing(s.mem, d.ioBank, x, 512), wp);
    d.loadSect := (d.loadSect as int + 1) % 0x1_0000;
    err := StoreLinear(d, Plus(x, 0x0200), n + 1, half, id);
    OnlyDiskTwice(s, u, d.m.State());
    BothStored(s, d.m.State(), img, half, id, d.ioBank, x, y, n);
  }

  lemma BothStored(s: Sys, t: Sys, img: seq<byte>, half: seq<byte>, id: MediaId, bank: byte, x: word, y: nat, n: nat)
    requires OnlyDisk(s, t) && RamBank(bank) && Elfs.Sized(img, id) && 1 <= y < Chunks(id)
    requires n == FirstSector(id, y) && 512 * n + 1024 <= |img| && |half| == |img|
    requires half == Rewritten(img, 512 * n, Outgoing(s.mem, bank, x, 512), Floppy.WriteProtected(s.drive.media))
    requires HasDisk(t, Rewritten(half, 512 * (n + 1), Outgoing(s.mem, bank, Plus(x, 0x0200), 512),
                                  Floppy.WriteProtected(s.drive.media)), id)
    requires t.drive.status == Floppy.Error <==> Floppy.WriteProtected(s.drive.media)
    ensures ChunkStored(s, t, img, id, bank, x, y)
  {
    hide HasDisk, Outgoing, Rewritten;
    TwoSectors(img, id, y, n, s.mem, bank, x, Floppy.WriteProtected(s.drive.media));
  }

  lemma QuietIsReady(s: Sys)
    requires Quiet(s)
    ensures StoreReady(s)
  {
  }

  lemma OnlyDiskGives(s: Sys, t: Sys)
    requires OnlyDisk(s, t)
    ensures StoreReady(t) && t.mem == s.mem && t.drive.media == s.drive.media
  {
  }

  lemma OnlyDiskTwice(s: Sys, u: Sys, t: Sys)
    requires OnlyDisk(s, u) && OnlyDisk(u, t)
    ensures OnlyDisk(s, t)
  {
  }

  /** A rewritten data chunk leaves everything DOS has paged in as it is on the disk. */
  lemma RewrittenStaysPaged(s: Sys, t: Sys, img: seq<byte>, id: MediaId, y: nat, data: seq<byte>)
    requires Dos.Paged(s, img, id) && 1 <= y < Chunks(id) && |data| == 1024 && ChunkOffset(id, y) + 1024 <= |img|
    requires Quiet(t) && t.mem == s.mem && HasDisk(t, Splice(img, ChunkOffset(id, y), data), id)
    ensures var jmg := Splice(img, ChunkOffset(id, y), data);
            Dos.Paged(t, jmg, id) && OneChunkNew(img, jmg, id, y, data)
  {
    hide HasDisk, Quiet, Bank, Splice, ChunkAt, TableOf, SameBut, MasterOf, TableBytes, Described, Dos.Paged;
    PagedDescribed(s, img, id);
    ChunkWrite(img, id, y, 0, data);
    var jmg := Splice(img, ChunkOffset(id, y), data);
    WholeChunk(ChunkAt(img, id, y), data);
    ElfsSteps.DescribedSame(img, jmg, id);
    TableBytesKept(img, id, y, data);
    PagedAlike(s, t, img, jmg, id);
  }

  lemma PagedAlike(s: Sys, t: Sys, img: seq<byte>, jmg: seq<byte>, id: MediaId)
    requires Dos.Paged(s, img, id) && Quiet(t) && t.mem == s.mem && HasDisk(t, jmg, id)
    requires Elfs.Sized(img, id) && Elfs.Sized(jmg, id) && MasterOf(jmg, id) == MasterOf(img, id)
    requires TableBytes(jmg, id) == TableBytes(img, id) && Described(jmg, id)
    ensures Dos.Paged(t, jmg, id)
  {
    hide Bank, MasterOf, TableBytes, Described;
  }

  lemma WholeChunk(c: seq<byte>, data: seq<byte>)
    requires |c| == |data|
    ensures Splice(c, 0, data) == data
  {
  }

  lemma TableBytesKept(img: seq<byte>, id: MediaId, y: nat, data: seq<byte>)
    requires Elfs.Sized(img, id) && 1 <= y < Chunks(id) && |data| == 1024 && ChunkOffset(id, y) + 1024 <= |img|
    ensures TableBytes(Splice(img, ChunkOffset(id, y), data), id) == TableBytes(img, id)
  {
    ChunkInside(id, y);
    SpliceElsewhere(img, ChunkOffset(id, y), data, 1024, 1024 + Base(id));
  }

  /** The two images are the same but for one data chunk, which has these bytes now. */
  predicate OneChunkNew(img: seq<byte>, jmg: seq<byte>, id: MediaId, y: nat, data: seq<byte>) {
    && Elfs.Sized(img, id) && Elfs.Sized(jmg, id) && 1 <= y < Chunks(id)
    && MasterOf(jmg, id) == MasterOf(img, id) && TableOf(jmg, id) == TableOf(img, id)
    && SameBut(img, jmg, id, [y]) && ChunkAt(jmg, id, y) == data
  }

  /** 1024 bytes from `x` are the new bytes of the chunk, and have been laid from `back` on. */
  predicate Reloaded(s: Sys, t: Sys, img: seq<byte>, jmg: seq<byte>, id: MediaId, bank: byte, x: word, y: nat,
                     back: word) {
    && Ok(s) && Ok(t) && RamBank(bank) && OneChunkNew(img, jmg, id, y, Outgoing(s.mem, bank, x, 1024))
    && t.mem == Loaded(s.mem, bank - 0x80, back, Outgoing(s.mem, bank, x, 1024))
  }

  /** What is stored in a chunk of a disk that is not protected is what is loaded from it again, and all
      other chunks, the table and the master block are as they were. */
  method StoreAndReload(d: Dos.Dos, x: word, y: word, back: word, ghost img: seq<byte>, ghost id: MediaId)
    returns (err: bool, ghost jmg: seq<byte>)
    requires d.m.Valid() && Dos.Paged(d.m.State(), img, id) && 1 <= y < Chunks(id) && RamBank(d.ioBank)
    requires !Floppy.WriteProtected(d.m.State().drive.media)
    modifies d`loadTrk, d`loadSect, d.m.Devices(), d.m.Memories()
    ensures !err && d.m.Valid() && HasDisk(d.m.State(), jmg, id)
    ensures Reloaded(old(d.m.State()), d.m.State(), img, jmg, id, d.ioBank, x, y, back)
  {
    hide HasDisk, Dos.Paged, Machine.State, Machine.Valid, Outgoing, Bank, Loaded, Splice, ChunkAt, TableOf,
         SameBut, MasterOf, RamBank;
    ghost var s := d.m.State();
    err := StoreChunk(d, x, y, img, id);
    ghost var data := Outgoing(s.mem, d.ioBank, x, 1024);
    jmg := Splice(img, ChunkOffset(id, y), data);
    ghost var u := d.m.State();
    AwaitReady(d.m);
    DiskStillThere(u, d.m.State(), jmg, id);
    RewrittenStaysPaged(s, d.m.State(), img, id, y, data);
    err := d.LoadChunk(back, y, jmg, id);
  }

  lemma PagedDescribed(s: Sys, img: seq<byte>, id: MediaId)
    requires Dos.Paged(s, img, id)
    ensures Elfs.Sized(img, id) && Described(img, id)
  {
  }

  lemma DiskStillThere(s: Sys, t: Sys, img: seq<byte>, id: MediaId)
    requires HasDisk(s, img, id) && Idle(t) && t == s.(drive := t.drive)
    requires t.drive.disk == s.drive.disk && t.drive.media == s.drive.media
    ensures HasDisk(t, img, id)
  {
  }
}
