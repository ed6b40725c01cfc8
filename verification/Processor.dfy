/** The processor registers updated in place: pushing, pulling, calls, interrupts and returns. */
module Processor {
  import opened Bytes
  import opened Memory
  import Stack
  import Arrival

  /** Interrupts disabled, decimal mode off, eight-bit registers. */
  function ResetFlags(p: byte): byte {
    var q := Stack.WithBreak(Stack.HandlerFlags(p));
    if q / 16 % 2 == 0 then q + 16 else q
  }

  lemma ResetBits(p: byte)
    ensures var q := ResetFlags(p);
            q / 4 % 2 == 1 && q / 8 % 2 == 0 && q / 16 % 4 == 3 && q % 4 == p % 4 && q / 64 == p / 64
  {
    hide Stack.HandlerFlags, ResetFlags;
    var low, x, b, high := HandlerBits(p);
    BothSet(p, low, x, b, high);
    BitsOf(low, 1, 1, high);
  }

  lemma HandlerBits(p: byte) returns (low: nat, x: nat, b: nat, high: nat)
    ensures low == p % 4 && x < 2 && b < 2 && high == p / 64
    ensures Stack.HandlerFlags(p) == low + 4 + 16 * x + 32 * b + 64 * high
  {
    hide Stack.HandlerFlags;
    Arrival.HandlerFlagsStart(p);
    var h := Stack.HandlerFlags(p);
    low, x, b, high := h % 4, h / 16 % 2, h / 32 % 2, h / 64;
    assert high == h / 16 / 4 && p / 64 == p / 16 / 4;
    UpperBits(h);
  }

  lemma PageOne(s: word)
    ensures var t := 0x0100 + s % 256; 0x0100 <= t < 0x0200 && t % 256 == s % 256
  {
  }

  lemma ResetVector(m: Mem, stackBank: byte)
    requires Sized(m)
    ensures Word(Load(m, stackBank, 0xFFFC), Load(m, stackBank, 0xFFFD))
         == m.rom[0xFFFC] as int + 256 * m.rom[0xFFFD] as int
  {
  }

  lemma BothSet(p: byte, low: nat, x: nat, b: nat, high: nat)
    requires low < 4 && x < 2 && b < 2 && high < 4
    requires Stack.HandlerFlags(p) == low + 4 + 16 * x + 32 * b + 64 * high
    ensures ResetFlags(p) == low + 4 + 16 + 32 + 64 * high
  {
    hide Stack.HandlerFlags;
    BitsOf(low, x, b, high);
    BitsOf(low, x, 1, high);
  }

  lemma UpperBits(h: byte)
    requires h / 4 % 2 == 1 && h / 8 % 2 == 0
    ensures h == h % 4 + 4 + 16 * (h / 16 % 2) + 32 * (h / 32 % 2) + 64 * (h / 64)
  {
    var a := h / 4;
    assert h == h % 4 + 4 * a && a == 1 + 2 * (h / 8) && h / 8 == 2 * (h / 16);
  }

  lemma BitsOf(low: nat, x: nat, b: nat, high: nat)
    requires low < 4 && x < 2 && b < 2 && high < 4
    ensures var q := low + 4 + 16 * x + 32 * b + 64 * high;
            && q / 4 % 2 == 1 && q / 8 % 2 == 0 && q / 16 % 2 == x && q / 32 % 2 == b && q / 16 % 4 == x + 2 * b
            && q % 4 == low && q / 64 == high
  {
    var q := low + 4 + 16 * x + 32 * b + 64 * high;
    assert q / 4 == 1 + 4 * x + 8 * b + 16 * high;
    assert q / 8 == 2 * x + 4 * b + 8 * high;
    assert q / 16 == x + 2 * b + 4 * high;
    assert q / 32 == b + 2 * high;
  }

  /** A call made by an instruction, and for an indexed one with this index. */
  predicate Matches(kind: Stack.Kind, x: word) { !kind.Hardware? && (kind.Indexed? ==> kind.x == x) }

  /** If the frame of the call spares the bytes it fetches, the call made in `c` goes where they say. */
  ghost predicate Goes(c: Stack.Core, d: Stack.Core, kind: Stack.Kind)
    requires Stack.Sound(c)
  {
    Arrival.FrameClear(c, kind) ==> Arrival.Arrived(c, d, kind)
  }

  lemma CallGoes(c: Stack.Core, kind: Stack.Kind)
    requires Stack.Sound(c)
    ensures Goes(c, Stack.Enter(c, kind), kind)
  {
    hide Arrival.FrameClear, Arrival.Arrived, Stack.Enter;
    if Arrival.FrameClear(c, kind) {
      Arrival.Arrives(c, kind);
    }
  }

  lemma CallGoesFromOpcode(c: Stack.Core, kind: Stack.Kind)
    requires Stack.Sound(c) && !kind.Hardware?
    ensures Goes(Arrival.AtOpcode(c), Stack.Enter(Arrival.AtOpcode(c), kind), kind)
    ensures Stack.Skip(Arrival.AtOpcode(c)) == c
  {
    hide Goes, Stack.Enter;
    Arrival.OpcodeFetched(c);
    CallGoes(Arrival.AtOpcode(c), kind);
  }

  lemma StartsCalls(c: Stack.Core, kind: Stack.Kind)
    requires Stack.Sound(c)
    ensures Stack.Starts(c, kind) ==> Stack.Calls(c, kind)
  {
  }

  class Cpu {
    const mem: MainMemory
    var s: word
    var pc: word
    var k: byte
    var p: byte
    var e: bool

    /** A processor coming out of reset with the given stack pointer and flags. */
    constructor (mem: MainMemory, s: word, p: byte)
      requires mem.Valid()
      ensures Valid() && this.mem == mem && e && k == 0
      ensures 0x0100 <= this.s < 0x0200 && this.s % 256 == s % 256
      ensures this.p / 4 % 2 == 1 && this.p / 8 % 2 == 0 && this.p / 16 % 4 == 3
      ensures this.p % 4 == p % 4 && this.p / 64 == p / 64
      ensures pc == mem.rom[0xFFFC] as int + 256 * mem.rom[0xFFFD] as int
    {
      hide ResetFlags, Load, Word, Stack.Skip;
      ResetBits(p);
      PageOne(s);
      this.mem := mem;
      this.s := 0x0100 + s % 256;
      this.p := ResetFlags(p);
      k, e, pc := 0, true, 0;
      new;
      var lo := ReadByte(0xFFFC);
      var hi := ReadByte(0xFFFD);
      pc := Word(lo, hi);
      ResetVector(mem.State(), mem.stackBank);
    }

    ghost predicate Valid()
      reads this, mem
    {
      mem.Valid() && Stack.InPage(s, e)
    }

    ghost function Core(): (c: Stack.Core)
      reads this, mem, mem.ram, mem.vram, mem.rom
      requires Valid()
      ensures Stack.Sound(c)
    {
      Stack.Core(s, pc, k, p, e, mem.State(), mem.stackBank)
    }

    /** A read by the processor; reading an I/O address is taken to have no effect here. */
    method ReadByte(a: addr) returns (v: byte)
      requires Valid()
      ensures v == Load(mem.State(), mem.stackBank, a)
    {
      var port;
      v, port := mem.Read(a);
      if port >= 0 {
        v := 0;
      }
    }

    method FetchCode() returns (v: byte)
      requires Valid()
      modifies `pc
      ensures Valid() && Core() == Stack.Skip(old(Core())) && v == Stack.CodeByte(old(Core()))
    {
      v := ReadByte(BankAddr(k, pc));
      pc := if pc == 0xFFFF then 0 else pc + 1;
    }

    method Push8(v: byte)
      requires Valid()
      modifies `s, mem.ram, mem.vram
      ensures Valid() && Core() == Stack.Push(old(Core()), v)
    {
      var _ := mem.Write(s, v);
      s := if s == 0 then 0xFFFF else s - 1;
      if e {
        s := 0x0100 + s % 256;
      }
    }

    method Push16(v: word)
      requires Valid()
      modifies `s, mem.ram, mem.vram
      ensures Valid() && Core() == Stack.PushWord(old(Core()), v)
    {
      Push8(Hi(v));
      Push8(Lo(v));
    }

    method Pull8() returns (v: byte)
      requires Valid()
      modifies `s
      ensures Valid() && (Core(), v) == Stack.Pull(old(Core()))
    {
      s := if s == 0xFFFF then 0 else s + 1;
      if e {
        s := 0x0100 + s % 256;
      }
      v := ReadByte(s);
    }

    method Jsr()
      requires Valid()
      modifies this, mem.ram, mem.vram
      ensures Valid() && Core() == Stack.Jsr(old(Core()))
      ensures Goes(Arrival.AtOpcode(old(Core())), Core(), Stack.Near)
    {
      hide Goes;
      CallGoesFromOpcode(Core(), Stack.Near);
      var lo := FetchCode();
      Push16(pc);
      var hi := FetchCode();
      pc := Word(lo, hi);
    }

    /** JSR through a table, at the offset in the index register. */
    method JsrIndexed(x: word)
      requires Valid()
      modifies this, mem.ram, mem.vram
      ensures Valid() && Core() == Stack.JsrIndexed(old(Core()), x)
      ensures Goes(Arrival.AtOpcode(old(Core())), Core(), Stack.Indexed(x))
    {
      hide Load, Store, Plus, Stack.Down, Word, Goes, Stack.Push;
      CallGoesFromOpcode(Core(), Stack.Indexed(x));
      var lo := FetchCode();
      Push16(pc);
      var hi := FetchCode();
      var at := Plus(Word(lo, hi), x);
      lo := ReadByte(BankAddr(k, at));
      hi := ReadByte(BankAddr(k, Plus(at, 1)));
      pc := Word(lo, hi);
    }

    method Rts()
      requires Valid()
      modifies this
      ensures Valid() && Core() == Stack.Rts(old(Core()))
    {
      var _ := FetchCode();
      var lo := Pull8();
      var hi := Pull8();
      pc := Word(lo, hi);
      var _ := FetchCode();
    }

    method Jsl()
      requires Valid()
      modifies this, mem.ram, mem.vram
      ensures Valid() && Core() == Stack.Jsl(old(Core()))
      ensures Goes(Arrival.AtOpcode(old(Core())), Core(), Stack.Far)
    {
      hide Stack.CodeByte, Stack.Down, Plus, Store, Load, Goes, Stack.Push;
      CallGoesFromOpcode(Core(), Stack.Far);
      var lo := FetchCode();
      var hi := FetchCode();
      Push8(k);
      Push16(pc);
      k := FetchCode();
      pc := Word(lo, hi);
    }

    method Rtl()
      requires Valid()
      modifies this
      ensures Valid() && Core() == Stack.Rtl(old(Core()))
    {
      var _ := FetchCode();
      var lo := Pull8();
      var hi := Pull8();
      pc := Word(lo, hi);
      k := Pull8();
      var _ := FetchCode();
    }

    /** Goes to the handler at a vector. */
    method GoToHandler(vector: word)
      requires Valid()
      modifies `pc, `p
      ensures Valid()
      ensures var c := old(Core());
              Core() == c.(p := Stack.HandlerFlags(c.p),
                pc := Word(Load(c.mem, c.bank, vector), Load(c.mem, c.bank, vector as int + 1)))
    {
      var lo := ReadByte(vector);
      var hi := ReadByte(vector as int + 1);
      pc := Word(lo, hi);
      if p / 4 % 2 == 0 {
        p := p + 4;
      }
      if p / 8 % 2 == 1 {
        p := p - 8;
      }
    }

    method StandardInterrupt(vector: word)
      requires Valid()
      modifies this, mem.ram, mem.vram
      ensures Valid() && Core() == Stack.Interrupted(old(Core()), old(p), vector)
      ensures Goes(old(Core()), Core(), Stack.Hardware(vector))
    {
      hide Goes;
      CallGoes(Core(), Stack.Hardware(vector));
      if !e {
        Push8(k);
        k := 0;
      }
      Push16(pc);
      Push8(p);
      GoToHandler(vector);
    }

    method Brk()
      requires Valid()
      modifies this, mem.ram, mem.vram
      ensures Valid() && Core() == Stack.Brk(old(Core()))
      ensures Goes(Arrival.AtOpcode(old(Core())), Core(), Stack.Break)
    {
      hide Goes;
      CallGoesFromOpcode(Core(), Stack.Break);
      var _ := FetchCode();
      if !e {
        Push8(k);
        k := 0;
      }
      Push16(pc);
      Push8(if e then Stack.WithBreak(p) else p);
      GoToHandler(if e then 0xFFFE else 0xFFE6);
    }

    method Cop()
      requires Valid()
      modifies this, mem.ram, mem.vram
      ensures Valid() && Core() == Stack.Cop(old(Core()))
      ensures Goes(Arrival.AtOpcode(old(Core())), Core(), Stack.CoProc)
    {
      hide Goes;
      CallGoesFromOpcode(Core(), Stack.CoProc);
      var _ := FetchCode();
      if !e {
        Push8(k);
        k := 0;
      }
      Push16(pc);
      Push8(p);
      GoToHandler(if e then 0xFFF4 else 0xFFE4);
    }

    method Rti()
      requires Valid()
      modifies this
      ensures Valid() && Core() == Stack.Rti(old(Core()))
    {
      var _ := FetchCode();
      p := Pull8();
      var lo := Pull8();
      var hi := Pull8();
      pc := Word(lo, hi);
      if !e {
        k := Pull8();
      }
    }

    /** Fetches the opcode and makes the call it stands for, with the given index register; false if it
        is not a call. */
    method StepCall(x: word) returns (called: bool)
      requires Valid()
      modifies this, mem.ram, mem.vram
      ensures Valid()
      ensures forall kind: Stack.Kind :: Matches(kind, x) && Stack.Calls(old(Core()), kind) ==>
        called && Core() == Stack.Enter(old(Core()), kind) && Goes(old(Core()), Core(), kind)
      ensures !called ==> Core() == Stack.Skip(old(Core()))
    {
      hide Stack.Jsr, Stack.JsrIndexed, Stack.Jsl, Stack.Brk, Stack.Cop, Goes;
      forall kind: Stack.Kind
        ensures Goes(Core(), Stack.Enter(Core(), kind), kind)
      {
        CallGoes(Core(), kind);
      }
      var op := FetchCode();
      called := true;
      match op {
        case 0x00 => Brk();
        case 0x02 => Cop();
        case 0x20 => Jsr();
        case 0x22 => Jsl();
        case 0xFC => JsrIndexed(x);
        case _ => called := false;
      }
    }

    /** Fetches the opcode and makes the return it stands for; false if it is not a return. */
    method StepReturn() returns (returned: bool)
      requires Valid()
      modifies this
      ensures Valid()
      ensures forall kind: Stack.Kind :: Stack.Ends(old(Core()), kind) ==>
        returned && Core() == Stack.Leave(old(Core()), kind)
    {
      hide Stack.Rts, Stack.Rtl, Stack.Rti;
      var op := FetchCode();
      returned := true;
      match op {
        case 0x40 => Rti();
        case 0x60 => Rts();
        case 0x6B => Rtl();
        case _ => returned := false;
      }
    }

    // ---------------------------------------------------------------- nested runs

    /** The writes of an instruction that leaves the stack alone. */
    method WriteAll(writes: seq<(addr, byte)>)
      requires Valid()
      modifies mem.ram, mem.vram
      ensures Valid() && Core() == Stack.WriteAll(old(Core()), writes)
      decreases |writes|
    {
      if writes != [] {
        var _ := mem.Write(writes[0].0, writes[0].1);
        WriteAll(writes[1..]);
      }
    }

    /** Goes through a properly nested run, making every call and return by its opcode. */
    method Follow(run: seq<Stack.Item>, ghost live: set<word>)
      requires Valid() && Stack.Exec(Core(), run, live).Some?
      modifies this, mem.ram, mem.vram
      ensures Valid() && Stack.Exec(old(Core()), run, live) == Stack.Some(Core())
      decreases run, 0
    {
      hide Stack.Starts, Stack.Ends, Stack.Enter, Stack.Leave, Stack.WriteAll, Stack.Push, Stack.Pull, Stack.Below,
           Stack.Clear;
      if run != [] {
        ghost var c := Core();
        match run[0] {
          case Local(pc, p, writes) =>
            WriteAll(writes);
            this.pc, this.p := pc, p;
          case LongJump(pc, k) =>
            this.pc, this.k := pc, k;
          case Held(v, body, pc, p) =>
            Push8(v);
            Follow(body, live + {c.s});
            var _ := Pull8();
            this.pc, this.p := pc, p;
          case Nest(kind, body) =>
            CallAndReturn(kind, body, live);
        }
        Follow(run[1..], live);
      }
    }

    /** One call with everything up to its return. */
    method CallAndReturn(kind: Stack.Kind, body: seq<Stack.Item>, ghost live: set<word>)
      requires Valid() && Stack.Exec(Core(), [Stack.Nest(kind, body)], live).Some?
      modifies this, mem.ram, mem.vram
      ensures Valid() && Stack.Exec(old(Core()), [Stack.Nest(kind, body)], live) == Stack.Some(Core())
      decreases body, 1
    {
      hide Stack.Starts, Stack.Calls, Stack.Ends, Stack.Enter, Stack.Leave, Stack.Below, Goes;
      ghost var c := Core();
      StartsCalls(c, kind);
      assert [Stack.Nest(kind, body)][1..] == [];
      if kind.Hardware? {
        EnterHardware(kind);
      } else {
        var _ := StepCall(if kind.Indexed? then kind.x else 0);
      }
      Follow(body, live + Stack.Below(c.s, c.e, Stack.FrameSize(kind)));
      var _ := StepReturn();
    }

    method EnterHardware(kind: Stack.Kind)
      requires Valid() && kind.Hardware?
      modifies this, mem.ram, mem.vram
      ensures Valid() && Core() == Stack.Enter(old(Core()), kind)
    {
      StandardInterrupt(kind.vector);
    }

    /** A properly nested call that the stack has room for comes back: to the instruction after it, or
        for a hardware interrupt to the interrupted one, with the stack as it was; all but JSR
        restore the bank, and interrupts the flags. */
    method MakeCall(kind: Stack.Kind, body: seq<Stack.Item>)
      requires Valid() && Stack.Exec(Core(), [Stack.Nest(kind, body)], {}).Some?
      requires Stack.Room(Core(), s, Stack.FrameSize(kind) + Stack.Depth(body))
      modifies this, mem.ram, mem.vram
      ensures Valid() && pc == Stack.Following(old(Core()), kind) && s == old(s) && e == old(e)
      ensures !Stack.IsNear(kind) ==> k == old(k)
      ensures Stack.IsNear(kind) && Stack.StaysInBank(body) ==> k == old(k)
      ensures !Stack.IsNear(kind) && !kind.Far? ==> p == old(p)
    {
      hide Stack.Exec, Stack.Pushed, Stack.Enter, Stack.Leave, Stack.Ends, Stack.Starts, Stack.Below, Stack.Slot,
           Stack.Room, Stack.StaysInBank, Stack.Depth, Stack.FrameSize, Load;
      ghost var c, n := Core(), Stack.FrameSize(kind) + Stack.Depth(body);
      Stack.EmptyStack(c, n);
      Stack.CallReturns(c, kind, body, {}, c.s, 0, n);
      if Stack.StaysInBank(body) && Stack.IsNear(kind) {
        Stack.DepthOfCall(kind, body);
        Stack.BankIsKept(c, [Stack.Nest(kind, body)], {}, c.s, 0, n);
      }
      CallAndReturn(kind, body, {});
    }
  }
}
