/** Loading a sector: the drive's data port drained by DMA channel 1 into a RAM bank. */
module SectorLoad {
  import opened Bytes
  import opened Memory
  import opened Dma
  import opened Machine
  import Floppy
  import FloppyTransfer

  const BANK_SIZE := 0x1_0000

  /** A bank of RAM as its 65536 bytes. */
  function Bank(m: Mem, b: nat): (bs: seq<byte>)
    requires Sized(m) && b < 16
    ensures |bs| == BANK_SIZE
  {
    m.ram[b * BANK_SIZE..(b + 1) * BANK_SIZE]
  }

  /** How far an address lies behind another, around the end of the bank. */
  function Behind(a: word, dst: word): word {
    if a >= dst then a - dst else a + BANK_SIZE - dst
  }

  /** A bank with `data` laid over it from `dst` on, wrapping at the end of the bank. */
  function Laid(bs: seq<byte>, dst: word, data: seq<byte>): (r: seq<byte>)
    requires |bs| == BANK_SIZE
    ensures |r| == BANK_SIZE
    ensures forall a :: 0 <= a < BANK_SIZE ==>
      r[a] == if Behind(a, dst) < |data| then data[Behind(a, dst)] else bs[a]
  {
    seq(BANK_SIZE, a requires 0 <= a < BANK_SIZE =>
      if Behind(a, dst) < |data| then data[Behind(a, dst)] else bs[a])
  }

  /** Memory with data laid over one RAM bank. */
  function Loaded(m: Mem, b: nat, dst: word, data: seq<byte>): (r: Mem)
    requires Sized(m) && b < 16
    ensures Sized(r)
  {
    m.(ram := Splice(m.ram, b * BANK_SIZE, Laid(Bank(m, b), dst, data)))
  }

  lemma LoadedNothing(m: Mem, b: nat, dst: word)
    requires Sized(m) && b < 16
    ensures Loaded(m, b, dst, []) == m
  {
    assert Laid(Bank(m, b), dst, []) == Bank(m, b);
    assert Splice(m.ram, b * BANK_SIZE, Bank(m, b)) == m.ram;
  }

  lemma LoadedOneMore(m: Mem, b: nat, dst: word, data: seq<byte>, v: byte)
    requires Sized(m) && b < 16 && |data| < BANK_SIZE
    ensures Put(Loaded(m, b, dst, data), Ram(b * BANK_SIZE + Plus(dst, |data|)), v)
         == Loaded(m, b, dst, data + [v])
  {
    var before, after := Laid(Bank(m, b), dst, data), Laid(Bank(m, b), dst, data + [v]);
    var a := Plus(dst, |data|);
    assert Behind(a, dst) == |data|;
    forall x | 0 <= x < BANK_SIZE
      ensures after[x] == before[a := v][x]
    {
    }
    assert after == before[a := v];
    assert Splice(m.ram, b * BANK_SIZE, before)[b * BANK_SIZE + a := v] == Splice(m.ram, b * BANK_SIZE, after);
  }

  lemma BankOfLoaded(m: Mem, b: nat, dst: word, data: seq<byte>, c: nat)
    requires Sized(m) && b < 16 && c < 16
    ensures Bank(Loaded(m, b, dst, data), c) == if c == b then Laid(Bank(m, b), dst, data) else Bank(m, c)
  {
    var l := Laid(Bank(m, b), dst, data);
    if c == b {
      assert Splice(m.ram, b * BANK_SIZE, l)[b * BANK_SIZE..(b + 1) * BANK_SIZE] == l;
    } else {
      assert c < b || b < c;
      SpliceElsewhere(m.ram, b * BANK_SIZE, l, c * BANK_SIZE, (c + 1) * BANK_SIZE);
    }
  }

  /** Data laid in two consecutive pieces. */
  lemma LaidTwice(bs: seq<byte>, dst: word, data: seq<byte>, more: seq<byte>)
    requires |bs| == BANK_SIZE && |data| + |more| <= BANK_SIZE
    ensures Laid(Laid(bs, dst, data), Plus(dst, |data|), more) == Laid(bs, dst, data + more)
  {
  }

  // ------------------------------------------------------------------ programming the channel and the drive

  /** A 16-bit store to two neighbouring ports, low byte first. */
  function IoWord(s: Sys, p: byte, w: word): (r: Sys)
    requires Ok(s) && p < 255
    ensures Ok(r)
  {
    IoOut(IoOut(s, p, Lo(w)), p + 1, Hi(w))
  }

  lemma PortStore(s: Sys, a: addr, v: byte)
    requires Ok(s) && 0x7000 <= a < 0x8000
    ensures StoreAt(s, a, v) == IoOut(s, a % 256, v)
  {
  }

  method StoreWord(m: Machine, a: addr, w: word)
    requires m.Valid() && 0x7000 <= a < 0x7FFF && a % 256 < 255
    modifies m.Devices(), m.Memories()
    ensures m.Valid() && m.State() == IoWord(old(m.State()), a % 256, w)
  {
    hide StoreAt, IoOut, Ok;
    PortStore(m.State(), a, Lo(w));
    m.StoreByte(a, Lo(w));
    PortStore(m.State(), a + 1, Hi(w));
    m.StoreByte(a + 1, Hi(w));
    assert (a + 1) % 256 == a % 256 + 1;
  }

  /** Two byte writes make a word register. */
  lemma BankRegisters(c: Channel, w: word)
    ensures WriteReg(WriteReg(c, 8, Lo(w)), 9, Hi(w)) == c.(dstBank := Lo(w), srcBank := Hi(w))
  {
  }

  lemma CountRegister(c: Channel, w: word)
    ensures WriteReg(WriteReg(c, 10, Lo(w)), 11, Hi(w)) == c.(lcount := w, count := w)
  {
    hide Lo, Hi, WithLo, WithHi;
    BothBytes(c.lcount, w);
  }

  lemma DstRegister(c: Channel, w: word)
    ensures WriteReg(WriteReg(c, 12, Lo(w)), 13, Hi(w)) == c.(dst := w)
  {
    hide Lo, Hi, WithLo, WithHi;
    BothBytes(c.dst, w);
  }

  lemma SrcRegister(c: Channel, w: word)
    ensures WriteReg(WriteReg(c, 14, Lo(w)), 15, Hi(w)) == c.(src := w)
  {
    hide Lo, Hi, WithLo, WithHi;
    BothBytes(c.src, w);
  }

  /** The DMA channel 1 registers as words. */
  lemma DmaWords(s: Sys, w: word)
    requires Ok(s)
    ensures IoWord(s, 88, w) == s.(ch := s.ch[1 := s.ch[1].(dstBank := Lo(w), srcBank := Hi(w))])
    ensures IoWord(s, 90, w) == s.(ch := s.ch[1 := s.ch[1].(lcount := w, count := w)])
    ensures IoWord(s, 92, w) == s.(ch := s.ch[1 := s.ch[1].(dst := w)])
    ensures IoWord(s, 94, w) == s.(ch := s.ch[1 := s.ch[1].(src := w)])
  {
    hide WriteReg;
    BankRegisters(s.ch[1], w);
    CountRegister(s.ch[1], w);
    DstRegister(s.ch[1], w);
    SrcRegister(s.ch[1], w);
  }

  /** The job of moving a sector from the drive's data port to bank `bank` from `dst` on. */
  function SectorJob(c: Channel, bank: byte, dst: word): Channel {
    Channel(0x84, c.status % 128 + 128, 0, 512, 512, dst, 0x702B, bank, 0x70)
  }

  lemma SectorJobStarts(c: Channel, bank: byte, dst: word)
    requires c.dst == dst && c.src == 0x702B && c.lcount == 512 && c.dstBank == bank && c.srcBank == 0x70
    ensures WriteReg(c, 0, 0x94) == SectorJob(c, bank, dst)
    ensures Started(SectorJob(c, bank, dst)) && Length(SectorJob(c, bank, dst)) == 512
  {
  }

  predicate DmaIdle(s: Sys)
    requires Ok(s)
  {
    forall k :: 0 <= k < 4 ==> !Copying(s.ch[k])
  }

  /** A RAM bank of the first megabyte, by its bank number. */
  predicate RamBank(bank: byte) { 0x80 <= bank < 0x90 }

  /** The cells of the i-th byte of a sector job. */
  lemma TransferCells(j: Channel, stackBank: byte, i: nat)
    requires j == SectorJob(j, j.dstBank, j.dst) && RamBank(j.dstBank) && i < 512
    ensures Started(j) && Length(j) == 512
    ensures SrcCell(AfterBytes(j, i)) == Port(43)
    ensures DstCell(AfterBytes(j, i), stackBank) == Ram((j.dstBank - 0x80) * BANK_SIZE + Plus(j.dst, i))
  {
    hide ResolveTransparent, AfterBytes, SrcCell, DstCell, Plus;
    CellsOfByte(j, stackBank, i);
    DataPortCell();
    InRamBank(j.dstBank, Plus(j.dst, i));
  }

  /** A drive whose data port hands out a sector, or over and over the code of an error. */
  predicate Serving(d: Floppy.Drive) {
    (d.status == Floppy.Reading && d.sectorOffset == 0) || d.status == Floppy.Error
  }

  /** The 512 bytes it hands out. */
  function Served(d: Floppy.Drive): (bs: seq<byte>)
    requires Floppy.Inv(d)
    ensures |bs| == 512
  {
    if d.status == Floppy.Reading then d.buffer[..512] else seq(512, _ => d.error)
  }

  /** A serving drive, as far as it shows, when `i` bytes have been read from it. */
  predicate HandedOut(d: Floppy.Drive, e: Floppy.Drive, i: nat) {
    FloppyTransfer.Visible(e)
    == if d.status == Floppy.Error then FloppyTransfer.Visible(d)
       else FloppyTransfer.Visible(d).(sectorOffset := if i < 512 then i else 0,
                                       status := if i < 512 then Floppy.Reading else Floppy.Ready)
  }

  lemma NextHandedOut(d: Floppy.Drive, e: Floppy.Drive, i: nat)
    requires Floppy.Inv(d) && Floppy.Inv(e) && Serving(d) && HandedOut(d, e, i) && i < 512
    ensures Floppy.ReadPort(e, 3).1 == Served(d)[i]
    ensures HandedOut(d, Floppy.ReadPort(e, 3).0, i + 1)
  {
  }

  /** A channel copying from the data port of the drive. */
  lemma CopyFromDrive(s: Sys, k: nat, x: Cell)
    requires Ok(s) && k < 4 && Enabled(s.ch[k]) && Copying(s.ch[k])
    requires SrcCell(s.ch[k]) == Port(43) && DstCell(s.ch[k], s.stackBank) == x && x.Ram?
    ensures CopyByte(s, k) == s.(mem := Put(s.mem, x, Floppy.ReadPort(s.drive, 3).1),
                                 drive := Floppy.ReadPort(s.drive, 3).0,
                                 ch := s.ch[k := Advance(s.ch[k])])
  {
    hide Advance, Put, Floppy.ReadPort;
  }

  /** One cycle of the transfer: the next byte of the drive's data port goes to the next address. */
  lemma TransferCycle(s: Sys, j: Channel, i: nat)
    requires Ok(s) && i < 512 && RamBank(j.dstBank) && j == SectorJob(j, j.dstBank, j.dst)
    requires Started(j) && Length(j) == 512 && s.ch[1] == AfterBytes(j, i)
    requires !Copying(s.ch[0]) && !Copying(s.ch[2]) && !Copying(s.ch[3])
    ensures var (d, v) := Floppy.ReadPort(s.drive, 3);
            DmaCycle(s) == s.(
                             mem := Put(s.mem, Ram((j.dstBank - 0x80) * BANK_SIZE + Plus(j.dst, i)), v),
                             drive := d,
                             ch := s.ch[1 := AfterBytes(j, i + 1)])
  {
    hide Floppy.Inv, Floppy.ReadPort, Put, Advance, AfterBytes, SectorJob, SrcCell, DstCell, Fetch, StoreAt;
    AdvanceIsOneMore(j, i);
    TransferCells(j, s.stackBank, i);
    CopyFromDrive(s, 1, Ram((j.dstBank - 0x80) * BANK_SIZE + Plus(j.dst, i)));
  }

  lemma DataPortCell()
    ensures ResolveTransparent(BankAddr(0x70, 0x702B)) == Port(43)
  {
  }

  // ------------------------------------------------------------------ the transfer loop

  /** What the transfer of the first `i` bytes leaves: the bytes laid over the bank, the channel
      advanced, and the drive that far into what it hands out. */
  ghost predicate Transferred(s: Sys, t: Sys, j: Channel, i: nat)
    requires Ok(s) && Ok(t) && RamBank(j.dstBank) && Started(j) && Length(j) == 512 && i <= 512
  {
    && t.mem == Loaded(s.mem, j.dstBank - 0x80, j.dst, Served(s.drive)[..i])
    && t.stackBank == s.stackBank && t.env == s.env
    && t.ch == s.ch[1 := AfterBytes(j, i)]
    && HandedOut(s.drive, t.drive, i)
  }

  lemma IdleTick(d: Floppy.Drive, ms: nat)
    requires Floppy.Inv(d) && !Floppy.Busy(d.status)
    ensures FloppyTransfer.Visible(Floppy.Tick(d, ms)) == FloppyTransfer.Visible(d)
  {
  }

  lemma TransferStep(s: Sys, t: Sys, j: Channel, i: nat)
    requires Ok(s) && Ok(t) && RamBank(j.dstBank) && i < 512 && j == SectorJob(j, j.dstBank, j.dst)
    requires Started(j) && Length(j) == 512
    requires !Copying(s.ch[0]) && !Copying(s.ch[2]) && !Copying(s.ch[3])
    requires Serving(s.drive)
    requires Transferred(s, t, j, i)
    ensures Transferred(s, DmaCycle(t), j, i + 1)
  {
    hide SectorJob, AfterBytes, DmaCycle, Loaded, Put, Served, HandedOut, Floppy.ReadPort;
    TransferCycle(t, j, i);
    NextHandedOut(s.drive, t.drive, i);
    var data := Served(s.drive);
    assert data[..i] + [data[i]] == data[..i + 1];
    LoadedOneMore(s.mem, j.dstBank - 0x80, j.dst, data[..i], data[i]);
  }

  lemma NothingHandedOut(d: Floppy.Drive)
    requires Serving(d)
    ensures HandedOut(d, d, 0)
  {
  }

  /** Time passing between two bytes changes nothing that shows. */
  lemma HandedOutIdle(d: Floppy.Drive, e: Floppy.Drive, i: nat, ms: nat)
    requires Floppy.Inv(e) && Serving(d) && HandedOut(d, e, i)
    ensures HandedOut(d, Floppy.Tick(e, ms), i)
  {
    hide Floppy.Tick;
    IdleTick(e, ms);
  }

  /** Waiting for channel 1 to finish a sector job, however the drive's clock ticks meanwhile. */
  method AwaitTransfer(m: Machine, ghost j: Channel)
    requires m.Valid() && RamBank(j.dstBank) && j == SectorJob(j, j.dstBank, j.dst)
    requires Started(j) && Length(j) == 512
    requires m.State().ch[1] == j
    requires !Copying(m.State().ch[0]) && !Copying(m.State().ch[2]) && !Copying(m.State().ch[3])
    requires Serving(m.drive.State())
    modifies m.Devices(), m.Memories()
    ensures m.Valid() && Transferred(old(m.State()), m.State(), j, 512)
  {
    hide SectorJob, DmaCycle, Loaded, Floppy.Inv, Served, HandedOut;
    ghost var s, i := m.State(), 0;
    NoBytes(j);
    LoadedNothing(s.mem, j.dstBank - 0x80, j.dst);
    NothingHandedOut(s.drive);
    assert Served(s.drive)[..0] == [] && s.ch[1 := j] == s.ch;
    while m.ch1.status / 128 % 2 == 1
      invariant m.Valid() && i <= 512 && Transferred(s, m.State(), j, i)
      invariant Copying(m.State().ch[1]) <==> i < 512
      decreases 512 - i
    {
      AdvanceIsOneMore(j, i);
      TransferStep(s, m.State(), j, i);
      m.RunDma();
      var ms: nat := *;
      HandedOutIdle(s.drive, m.drive.State(), i + 1, ms);
      m.drive.Elapse(ms);
      i := i + 1;
    }
  }
}
