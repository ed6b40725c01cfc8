/** The machine around the memories: the I/O page in front of the floppy drive and the DMA
    channels, and the DMA engine moving bytes between memory and the drive's data port. */
module Machine {
  import opened Bytes
  import opened Memory
  import opened Dma
  import Floppy
  import FloppyRuns
  import FloppyDevice

  /** `env` is what the ports of all other devices, and the drive's status port, read as. */
  datatype Sys = Sys(mem: Mem, stackBank: byte, drive: Floppy.Drive, ch: seq<Channel>, env: seq<byte>)

  predicate Ok(s: Sys) {
    Sized(s.mem) && Floppy.Inv(s.drive) && |s.ch| == 4 && |s.env| == 256
  }

  predicate IsDmaPort(p: byte) { p / 64 == 1 }

  function IoIn(s: Sys, p: byte): (r: (Sys, byte))
    requires Ok(s)
    ensures Ok(r.0) && r.0.mem == s.mem
  {
    if 41 <= p < 44 then
      var (d, v) := Floppy.ReadPort(s.drive, p - 40);
      (s.(drive := d), v)
    else if IsDmaPort(p) then (s, ReadReg(s.ch[p / 16 % 4], p % 16))
    else if p == 1 then (s, s.stackBank % 128 + 128)
    else (s, s.env[p])
  }

  function IoOut(s: Sys, p: byte, v: byte): (r: Sys)
    requires Ok(s)
    ensures Ok(r) && r.mem == s.mem
  {
    if 40 <= p < 44 then s.(drive := Floppy.WritePort(s.drive, p - 40, v))
    else if IsDmaPort(p) then
      s.(ch := s.ch[p / 16 % 4 := WriteReg(s.ch[p / 16 % 4], p % 16, v)])
    else if p == 1 then s.(stackBank := v % 128 + 128)
    else s
  }

  /** The sixteen ports of each channel, at $40, $50, $60 and $70, are that channel's registers, and a
      write to one of them is seen in no other channel, nor in the drive or the stack bank. */
  lemma ChannelPorts(s: Sys, k: nat, r: nat, v: byte, l: nat, q: nat)
    requires Ok(s) && k < 4 && r < 16 && l < 4 && q < 16
    ensures IoIn(s, 64 + 16 * l + q) == (s, ReadReg(s.ch[l], q))
    ensures var t := IoOut(s, 64 + 16 * k + r, v);
            && t == s.(ch := t.ch)
            && IoIn(t, 64 + 16 * l + q).1 == ReadReg(if l == k then WriteReg(s.ch[k], r, v) else s.ch[l], q)
  {
    hide ReadReg, WriteReg;
    PortNumbers(k, r);
    PortNumbers(l, q);
  }

  lemma PortNumbers(k: nat, r: nat)
    requires k < 4 && r < 16
    ensures var p := 64 + 16 * k + r; p / 64 == 1 && p / 16 % 4 == k && p % 16 == r
  {
    var p := 64 + 16 * k + r;
    assert p / 16 == 4 + k;
  }

  /** The stack bank register reads back with its top bit set: only RAM banks and unmapped ones can be chosen. */
  lemma StackBankReadsBack(s: Sys, v: byte)
    requires Ok(s)
    ensures var t := IoOut(s, 1, v);
            t.stackBank >= 128 && t.stackBank % 128 == v % 128 && IoIn(t, 1) == (t, t.stackBank)
  {
  }

  /** A DMA fetch: the transparent map, with reads of I/O addresses going to the ports. */
  function Fetch(s: Sys, a: addr): (r: (Sys, byte))
    requires Ok(s)
    ensures Ok(r.0)
  {
    var c := ResolveTransparent(a);
    if c.Port? then IoIn(s, c.p) else (s, Get(s.mem, c))
  }

  /** A store by the processor or by DMA. */
  function StoreAt(s: Sys, a: addr, v: byte): (r: Sys)
    requires Ok(s)
    ensures Ok(r)
  {
    var c := Resolve(a, s.stackBank);
    if c.Port? then IoOut(s, c.p, v) else s.(mem := Put(s.mem, c, v))
  }

  /** One channel's share of a cycle, registers and ports included. */
  function CopyByte(s: Sys, k: nat): (r: Sys)
    requires Ok(s) && k < 4
    ensures Ok(r)
  {
    var c := s.ch[k];
    if !(Enabled(c) && Copying(c)) then s
    else
      var (s, v) := Fetch(s, BankAddr(c.srcBank, c.src));
      var s := StoreAt(s, BankAddr(c.dstBank, c.dst), v);
      s.(ch := s.ch[k := Advance(s.ch[k])])
  }

  function DmaCycle(s: Sys): (r: Sys)
    requires Ok(s)
    ensures Ok(r)
  {
    CopyByte(CopyByte(CopyByte(CopyByte(s, 0), 1), 2), 3)
  }

  /** Between memory cells the machine's DMA is the memory-to-memory engine. */
  lemma CopyByteInMemory(s: Sys, k: nat)
    requires Ok(s) && k < 4
    requires !SrcCell(s.ch[k]).Port? && !DstCell(s.ch[k], s.stackBank).Port?
    ensures var (m, c) := CycleCopy(s.mem, s.stackBank, s.ch[k]);
            CopyByte(s, k) == s.(mem := m, ch := s.ch[k := c])
  {
    assert s.ch[k := s.ch[k]] == s.ch;
  }

  class DmaChannel {
    var control: byte
    var status: byte
    var copied: word
    var count: word
    var lcount: word
    var dst: word
    var src: word
    var dstBank: byte
    var srcBank: byte

    ghost function State(): Channel
      reads this
    {
      Channel(control, status, copied, count, lcount, dst, src, dstBank, srcBank)
    }

    constructor ()
      ensures State() == Channel(0, 0, 0, 0, 0, 0, 0, 0, 0)
    {
      control, status, copied, count, lcount, dst, src, dstBank, srcBank := 0, 0, 0, 0, 0, 0, 0, 0, 0;
    }

    method In(r: nat) returns (v: byte)
      ensures v == ReadReg(State(), r)
    {
      match r % 16 {
        case 0 => v := control;
        case 1 => v := status;
        case 2 => v := Lo(copied);
        case 3 => v := Hi(copied);
        case 8 => v := dstBank;
        case 9 => v := srcBank;
        case 10 => v := Lo(lcount);
        case 11 => v := Hi(lcount);
        case 12 => v := Lo(dst);
        case 13 => v := Hi(dst);
        case 14 => v := Lo(src);
        case 15 => v := Hi(src);
        case _ => v := 0;
      }
    }

    method Out(r: nat, v: byte)
      modifies this
      ensures State() == WriteReg(old(State()), r, v)
    {
      match r % 16 {
        case 0 =>
          control := v / 128 * 128 + v % 16;
          if v / 16 % 2 == 1 {
            copied := 0;
          }
          if v / 128 % 2 == 1 {
            count := lcount;
            status := status % 128 + 128;
          }
        case 8 => dstBank := v;
        case 9 => srcBank := v;
        case 10 =>
          lcount := WithLo(lcount, v);
          count := lcount;
        case 11 =>
          lcount := WithHi(lcount, v);
          count := lcount;
        case 12 => dst := WithLo(dst, v);
        case 13 => dst := WithHi(dst, v);
        case 14 => src := WithLo(src, v);
        case 15 => src := WithHi(src, v);
        case _ =>
      }
    }

    /** The register updates that follow the transfer of a byte; true when it was the last. */
    method CountByte() returns (last: bool)
      modifies this
      ensures State() == Advance(old(State()))
      ensures last <==> count == 0
    {
      copied := Plus(copied, 1);
      if control / 8 % 2 == 0 { dst := Plus(dst, 1); }
      if control / 4 % 2 == 0 { src := Plus(src, 1); }
      count := Dec(count);
      last := count == 0;
      if last {
        status := status % 128;
      }
    }
  }

  class Machine {
    const mem: MainMemory
    const drive: FloppyDevice.FloppyDrive
    const ch0: DmaChannel
    const ch1: DmaChannel
    const ch2: DmaChannel
    const ch3: DmaChannel
    const env: seq<byte>

    ghost predicate Valid()
      reads this, mem, drive, drive.disk, drive.buffer
    {
      && mem.Valid() && drive.Valid() && |env| == 256
      && ch0 != ch1 && ch0 != ch2 && ch0 != ch3 && ch1 != ch2 && ch1 != ch3 && ch2 != ch3
      && {mem.ram, mem.vram, mem.rom} !! {drive.disk, drive.buffer}
    }

    /** A machine that has just been switched on, with the given readings of the other devices. */
    constructor (env: seq<byte>)
      requires |env| == 256
      ensures Valid() && fresh(Devices()) && fresh(Memories()) && fresh(mem.rom)
      ensures State().drive == FloppyRuns.PowerOn()
      ensures forall k :: 0 <= k < 4 ==> !Copying(State().ch[k])
    {
      hide Floppy.Inv, FloppyRuns.PowerOn;
      mem := new MainMemory();
      drive := new FloppyDevice.FloppyDrive();
      ch0 := new DmaChannel();
      ch1 := new DmaChannel();
      ch2 := new DmaChannel();
      ch3 := new DmaChannel();
      this.env := env;
    }

    ghost function Memories(): set<object>
    {
      {mem.ram, mem.vram}
    }

    ghost function Devices(): set<object>
    {
      {mem, drive, drive.disk, drive.buffer, ch0, ch1, ch2, ch3}
    }

    ghost function State(): (s: Sys)
      requires Valid()
      reads this, mem, mem.ram, mem.vram, mem.rom, drive, drive.disk, drive.buffer, ch0, ch1, ch2, ch3
      ensures Ok(s)
    {
      Sys(mem.State(), mem.stackBank, drive.State(), [ch0.State(), ch1.State(), ch2.State(), ch3.State()], env)
    }

    function Chan(k: nat): DmaChannel
      requires k < 4
    {
      match k case 0 => ch0 case 1 => ch1 case 2 => ch2 case 3 => ch3
    }

    method InPort(p: byte) returns (v: byte)
      requires Valid()
      modifies drive
      ensures Valid() && (State(), v) == IoIn(old(State()), p)
    {
      if 41 <= p < 44 {
        v := drive.In(p - 40);
      } else if IsDmaPort(p) {
        v := Chan(p / 16 % 4).In(p % 16);
      } else if p == 1 {
        v := mem.stackBank % 128 + 128;
      } else {
        v := env[p];
      }
    }

    method OutPort(p: byte, v: byte)
      requires Valid()
      modifies Devices()
      ensures Valid() && State() == IoOut(old(State()), p, v)
    {
      if 40 <= p < 44 {
        drive.Out(p - 40, v);
      } else if IsDmaPort(p) {
        Chan(p / 16 % 4).Out(p % 16, v);
      } else if p == 1 {
        mem.stackBank := v % 128 + 128;
      }
    }

    method StoreByte(a: addr, v: byte)
      requires Valid()
      modifies Devices(), Memories()
      ensures Valid() && State() == StoreAt(old(State()), a, v)
    {
      var port := mem.Write(a, v);
      if port >= 0 {
        OutPort(port, v);
      }
    }

    method FetchByte(a: addr) returns (v: byte)
      requires Valid()
      modifies drive
      ensures Valid() && (State(), v) == Fetch(old(State()), a)
    {
      var port;
      v, port := mem.ReadTransparent(a);
      if port >= 0 {
        v := InPort(port);
      }
    }

    method CopyOne(k: nat)
      requires Valid() && k < 4
      modifies Devices(), Memories()
      ensures Valid() && State() == CopyByte(old(State()), k)
    {
      hide Fetch, StoreAt, Advance, Floppy.Inv;
      var c := Chan(k);
      if c.control / 128 % 2 == 1 && c.status / 128 % 2 == 1 {
        var v := FetchByte(BankAddr(c.srcBank, c.src));
        StoreByte(BankAddr(c.dstBank, c.dst), v);
        var _ := c.CountByte();
      }
    }

    method RunDma()
      requires Valid()
      modifies Devices(), Memories()
      ensures Valid() && State() == DmaCycle(old(State()))
    {
      CopyOne(0);
      CopyOne(1);
      CopyOne(2);
      CopyOne(3);
    }
  }
}
