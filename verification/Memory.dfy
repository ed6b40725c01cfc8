/** The address space of the machine: which storage cell an address reaches, and what a read finds
    after a write to any other address. */
module Memory {
  import opened Bytes

  const RAM_SIZE := 1048576
  const VRAM_SIZE := 524288
  const ROM_SIZE := 524288

  type addr = x: int | 0 <= x < 0x100_0000

  function BankAddr(bank: byte, a: word): addr { bank * 0x1_0000 + a }

  /** What an address stands for. */
  datatype Cell = Ram(i: nat) | Vram(i: nat) | Rom(i: nat) | Unmapped | Port(p: byte)

  predicate Writable(c: Cell) { c.Ram? || c.Vram? }

  predicate Exists(c: Cell) {
    match c
    case Ram(i) => i < RAM_SIZE
    case Vram(i) => i < VRAM_SIZE
    case Rom(i) => i < ROM_SIZE
    case _ => true
  }

  /** The map of the banks other than bank 0, which is also the whole map for DMA reads. */
  function ResolveTransparent(a: addr): (c: Cell)
    ensures Exists(c)
  {
    var low := a % 0x40_0000;
    if a < 0x40_0000 then Rom(low % ROM_SIZE)
    else if a < 0x80_0000 then if low >= VRAM_SIZE then Port(low % 256) else Vram(low)
    else if low >= RAM_SIZE then Unmapped
    else Ram(low)
  }

  /** The map the processor sees: bank 0 starts with the stack bank's first kilobyte, goes on with
      low RAM and the I/O page, and ends in ROM. */
  function Resolve(a: addr, stackBank: byte): (c: Cell)
    ensures Exists(c)
  {
    if a >= 0x1_0000 then ResolveTransparent(a)
    else if a < 0x0400 then
      if stackBank == 0 then Ram(a) else ResolveTransparent(BankAddr(stackBank, a))
    else if a < 0x7000 then Ram(a)
    else if a < 0x8000 then Port(a % 256)
    else Rom(a)
  }

  /** The contents of the three memories. */
  datatype Mem = Mem(ram: seq<byte>, vram: seq<byte>, rom: seq<byte>)

  predicate Sized(m: Mem) {
    |m.ram| == RAM_SIZE && |m.vram| == VRAM_SIZE && |m.rom| == ROM_SIZE
  }

  function Get(m: Mem, c: Cell): byte
    requires Sized(m) && Exists(c)
  {
    match c
    case Ram(i) => m.ram[i]
    case Vram(i) => m.vram[i]
    case Rom(i) => m.rom[i]
    case Unmapped => 0xFF
    case Port(_) => 0
  }

  function Put(m: Mem, c: Cell, v: byte): (r: Mem)
    requires Sized(m) && Exists(c)
    ensures Sized(r)
    ensures forall x :: Exists(x) ==> Get(r, x) == if x == c && Writable(c) then v else Get(m, x)
  {
    match c
    case Ram(i) => m.(ram := m.ram[i := v])
    case Vram(i) => m.(vram := m.vram[i := v])
    case _ => m
  }

  /** Memories that agree on every cell are equal. */
  lemma SameCells(m: Mem, n: Mem)
    requires Sized(m) && Sized(n)
    requires forall x :: Exists(x) ==> Get(m, x) == Get(n, x)
    ensures m == n
  {
    forall i | 0 <= i < RAM_SIZE ensures m.ram[i] == n.ram[i] {
      assert Get(m, Ram(i)) == Get(n, Ram(i));
    }
    forall i | 0 <= i < VRAM_SIZE ensures m.vram[i] == n.vram[i] {
      assert Get(m, Vram(i)) == Get(n, Vram(i));
    }
    forall i | 0 <= i < ROM_SIZE ensures m.rom[i] == n.rom[i] {
      assert Get(m, Rom(i)) == Get(n, Rom(i));
    }
  }

  class MainMemory {
    const ram: array<byte>
    const vram: array<byte>
    const rom: array<byte>
    var stackBank: byte

    ghost predicate Valid()
      reads this
    {
      && ram.Length == RAM_SIZE && vram.Length == VRAM_SIZE && rom.Length == ROM_SIZE
      && ram != vram && ram != rom && vram != rom
    }

    ghost function State(): (m: Mem)
      reads this, ram, vram, rom
      requires Valid()
      ensures Sized(m)
    {
      Mem(ram[..], vram[..], rom[..])
    }

    constructor ()
      ensures Valid() && fresh(ram) && fresh(vram) && fresh(rom) && stackBank == 0
    {
      ram := new byte[RAM_SIZE](_ => 0);
      vram := new byte[VRAM_SIZE](_ => 0);
      rom := new byte[ROM_SIZE](_ => 0);
      stackBank := 0;
    }

    /** A read that ignores the bank-0 map; an I/O address yields the port for the caller to read. */
    method ReadTransparent(a: addr) returns (v: byte, port: int)
      requires Valid()
      ensures var c := ResolveTransparent(a);
              if c.Port? then port == c.p else port == -1 && v == Get(State(), c)
    {
      var highTwo, low := a / 0x40_0000, a % 0x40_0000;
      port, v := -1, 0;
      if highTwo == 0 {
        v := rom[low % ROM_SIZE];
      } else if highTwo == 1 {
        if low >= VRAM_SIZE {
          port := low % 256;
        } else {
          v := vram[low];
        }
      } else {
        v := if low >= RAM_SIZE then 0xFF else ram[low];
      }
    }

    method Read(a: addr) returns (v: byte, port: int)
      requires Valid()
      ensures var c := Resolve(a, stackBank);
              if c.Port? then port == c.p else port == -1 && v == Get(State(), c)
      decreases a < 0x1_0000
    {
      var bank := a / 0x1_0000;
      if bank == 0 {
        if a < 0x0400 {
          if stackBank != 0 {
            v, port := Read(BankAddr(stackBank, a));
          } else {
            v, port := ram[a], -1;
          }
        } else if a < 0x7000 {
          v, port := ram[a], -1;
        } else if a < 0x8000 {
          v, port := 0, a % 256;
        } else {
          v, port := rom[a], -1;
        }
        return;
      }
      v, port := ReadTransparent(a);
    }

    /** A write; an I/O address yields the port for the caller to write. */
    method Write(a: addr, v: byte) returns (port: int)
      requires Valid()
      modifies ram, vram
      ensures var c := Resolve(a, stackBank);
              && port == (if c.Port? then c.p else -1)
              && State() == Put(old(State()), c, v)
      decreases a < 0x1_0000
    {
      var bank, highTwo, low := a / 0x1_0000, a / 0x40_0000, a % 0x40_0000;
      port := -1;
      assert bank == 0 ==> low == a;
      assert highTwo >= 2 <==> a >= 0x80_0000;
      if bank == 0 {
        if low < 0x0400 {
          if stackBank != 0 {
            port := Write(BankAddr(stackBank, low), v);
          } else {
            ram[low] := v;
          }
        } else if low < 0x7000 {
          ram[low] := v;
        } else if low < 0x8000 {
          port := low % 0x1000 % 256;
        }
        return;
      }
      if highTwo == 1 {
        if low >= VRAM_SIZE {
          port := low % 256;
        } else {
          vram[low] := v;
        }
      } else if highTwo >= 2 {
        if low < RAM_SIZE {
          ram[low] := v;
        }
      }
    }
  }

  /** What the processor reads at an address that is not I/O. */
  function Load(m: Mem, stackBank: byte, a: addr): byte
    requires Sized(m)
  {
    Get(m, Resolve(a, stackBank))
  }

  function Store(m: Mem, stackBank: byte, a: addr, v: byte): (r: Mem)
    requires Sized(m)
    ensures Sized(r)
  {
    Put(m, Resolve(a, stackBank), v)
  }

  /** The index in RAM of a bank-0 or RAM-bank address, in the terms of the memory map's mirrors. */
  function RamIndex(a: addr, stackBank: byte): nat {
    if a < 0x0400 then stackBank % 64 * 0x1_0000 + a
    else if a < 0x1_0000 then a
    else a % 0x40_0000
  }

  /** The addresses that reach RAM: low bank 0 (its first kilobyte only while the stack bank is a
      RAM bank within the first megabyte), banks $80-$8F and their mirrors $C0-$CF. */
  predicate InRam(a: addr, stackBank: byte) {
    if a < 0x0400 then stackBank == 0 || (stackBank >= 0x80 && stackBank % 64 < 16)
    else if a < 0x1_0000 then a < 0x7000
    else a >= 0x80_0000 && a % 0x40_0000 < RAM_SIZE
  }

  predicate InVram(a: addr, stackBank: byte) {
    if a < 0x0400 then 0x40 <= stackBank < 0x48 else 0x40_0000 <= a < 0x48_0000
  }

  predicate InIo(a: addr, stackBank: byte) {
    if a < 0x0400 then 0x48 <= stackBank < 0x80
    else 0x7000 <= a < 0x8000 || 0x48_0000 <= a < 0x80_0000
  }

  /** The addresses that reach ROM: the upper half of bank 0, and banks $01-$3F, where the eight banks of
      ROM repeat. */
  predicate InRom(a: addr, stackBank: byte) {
    if a < 0x0400 then 1 <= stackBank < 0x40
    else if a < 0x1_0000 then a >= 0x8000
    else a < 0x40_0000
  }

  function RomIndex(a: addr, stackBank: byte): nat {
    if a < 0x0400 then stackBank % 8 * 0x1_0000 + a else a % 0x8_0000
  }

  /** Two addresses share storage exactly when both lie in RAM with the same RAM index, or both in
      video RAM with the same offset. */
  predicate Aliases(a: addr, b: addr, stackBank: byte) {
    || (InRam(a, stackBank) && InRam(b, stackBank) && RamIndex(a, stackBank) == RamIndex(b, stackBank))
    || (InVram(a, stackBank) && InVram(b, stackBank)
        && RamIndex(a, stackBank) == RamIndex(b, stackBank))
  }

  /** For every pair of addresses outside I/O and every stack bank, a read after a write finds the
      new value exactly at the aliases of the written address, and the old one everywhere else. */
  lemma ReadAfterWrite(m: Mem, stackBank: byte, a: addr, v: byte, b: addr)
    requires Sized(m) && !InIo(a, stackBank) && !InIo(b, stackBank)
    ensures Load(Store(m, stackBank, a, v), stackBank, b)
         == if Aliases(a, b, stackBank) then v else Load(m, stackBank, b)
  {
    CellOf(a, stackBank);
    CellOf(b, stackBank);
  }

  lemma CellOf(a: addr, stackBank: byte)
    ensures Resolve(a, stackBank).Ram? <==> InRam(a, stackBank)
    ensures InRam(a, stackBank) ==> Resolve(a, stackBank) == Ram(RamIndex(a, stackBank))
    ensures Resolve(a, stackBank).Vram? <==> InVram(a, stackBank)
    ensures InVram(a, stackBank) ==> Resolve(a, stackBank) == Vram(RamIndex(a, stackBank))
    ensures Resolve(a, stackBank).Port? <==> InIo(a, stackBank)
  {
    if a < 0x0400 && stackBank != 0 {
      var x := BankAddr(stackBank, a);
      assert x / 0x40_0000 == stackBank / 64 && x % 0x40_0000 == stackBank % 64 * 0x1_0000 + a;
    }
  }

  /** The same for ROM. */
  lemma RomCellOf(a: addr, stackBank: byte)
    ensures Resolve(a, stackBank).Rom? <==> InRom(a, stackBank)
    ensures InRom(a, stackBank) ==> Resolve(a, stackBank) == Rom(RomIndex(a, stackBank))
  {
    if a < 0x0400 && stackBank != 0 {
      var x := BankAddr(stackBank, a);
      assert x / 0x40_0000 == stackBank / 64 && x % 0x40_0000 == stackBank % 64 * 0x1_0000 + a;
      if stackBank < 64 {
        var q, r := stackBank / 8, stackBank % 8;
        assert x == q * 0x8_0000 + (r * 0x1_0000 + a);
      }
    }
  }
}
