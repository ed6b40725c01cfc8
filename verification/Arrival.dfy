/** Where a call goes: the place, the bank and the flags a subroutine or a handler starts with, in the
    bytes that memory held before the call; and what interrupts do in emulation mode. */
module Arrival {
  import opened Bytes
  import opened Memory
  import opened Stack

  /** A byte of memory, and the one `i` bytes after the program counter. */
  function ByteAt(c: Core, a: addr): byte
    requires Sound(c)
  {
    Load(c.mem, c.bank, a)
  }

  function CodeAddr(c: Core, i: nat): addr
    requires i < 0x1_0000
  {
    BankAddr(c.k, Plus(c.pc, i))
  }

  function Operand(c: Core, i: nat): byte
    requires Sound(c) && i < 0x1_0000
  {
    ByteAt(c, CodeAddr(c, i))
  }

  /** Where in the program bank an indexed call finds its address. */
  function TableAt(c: Core, x: word): word
    requires Sound(c)
  {
    (Operand(c, 1) as int + 256 * Operand(c, 2) as int + x) % 0x1_0000
  }

  /** The vector of an interrupt. */
  function Vector(c: Core, kind: Kind): word {
    match kind
    case Break => if c.e then 0xFFFE else 0xFFE6
    case CoProc => if c.e then 0xFFF4 else 0xFFE4
    case Hardware(vector) => vector
    case _ => 0
  }

  /** Interrupts disabled, decimal mode off, all other flags as they were. */
  predicate HandlerStarts(p: byte, q: byte) {
    q / 4 % 2 == 1 && q / 8 % 2 == 0 && q % 4 == p % 4 && q / 16 == p / 16
  }

  /** Being in `d`, where the call of the given kind made in `c` goes. */
  predicate Arrived(c: Core, d: Core, kind: Kind)
    requires Sound(c)
  {
    && d.e == c.e && d.bank == c.bank
    && match kind
       case Near =>
         d.pc == Operand(c, 1) as int + 256 * Operand(c, 2) as int && d.k == c.k && d.p == c.p
       case Far =>
         d.pc == Operand(c, 1) as int + 256 * Operand(c, 2) as int && d.k == Operand(c, 3) && d.p == c.p
       case Indexed(x) =>
         var t := TableAt(c, x);
         && d.pc == ByteAt(c, BankAddr(c.k, t)) as int + 256 * ByteAt(c, BankAddr(c.k, Plus(t, 1))) as int
         && d.k == c.k && d.p == c.p
       case _ =>
         var v := Vector(c, kind);
         && d.pc == ByteAt(c, v) as int + 256 * ByteAt(c, v as int + 1) as int
         && d.k == (if c.e then c.k else 0) && HandlerStarts(c.p, d.p)
  }

  /** The number of bytes a call pushes. */
  function PushCount(c: Core, kind: Kind): nat {
    if IsNear(kind) then 2 else if kind.Far? || c.e then 3 else 4
  }

  /** None of the next `n` pushes overwrites the byte at `a`. */
  ghost predicate Spared(c: Core, n: nat, a: addr) {
    forall w :: w in Below(c.s, c.e, n) ==> !Writable(Resolve(w, c.bank)) || Resolve(w, c.bank) != Resolve(a, c.bank)
  }

  /** The call does not push its frame over the bytes it is yet to fetch. */
  ghost predicate FrameClear(c: Core, kind: Kind)
    requires Sound(c)
  {
    var n := PushCount(c, kind);
    match kind
    case Near => Spared(c, n, CodeAddr(c, 2))
    case Far => Spared(c, n, CodeAddr(c, 3))
    case Indexed(x) =>
      && Spared(c, n, CodeAddr(c, 2)) && Spared(c, n, BankAddr(c.k, TableAt(c, x)))
      && Spared(c, n, BankAddr(c.k, Plus(TableAt(c, x), 1)))
    case Hardware(vector) => Spared(c, n, vector) && Spared(c, n, vector as int + 1)
    case _ => true
  }

  /** Vectors in ROM are out of reach. */
  lemma RomIsSpared(c: Core, n: nat, a: addr)
    requires 0x8000 <= a < 0x40_0000
    ensures Spared(c, n, a)
  {
  }

  lemma PushSpares(c: Core, v: byte, n: nat, a: addr)
    requires Sound(c) && n > 0 && Spared(c, n, a)
    ensures ByteAt(Push(c, v), a) == ByteAt(c, a) && Spared(Push(c, v), n - 1, a)
  {
    hide Resolve, Down;
    assert c.s in Below(c.s, c.e, n);
    assert Below(Down(c.s, c.e), c.e, n - 1) <= Below(c.s, c.e, n);
  }

  /** Registers other than the stack pointer do not matter. */
  lemma MovedSpares(c: Core, d: Core, n: nat, a: addr)
    requires Sound(c) && d == c.(pc := d.pc, k := d.k, p := d.p) && Spared(c, n, a)
    ensures ByteAt(d, a) == ByteAt(c, a) && Spared(d, n, a)
  {
    hide Resolve, Load, Below;
  }

  lemma WordSpares(c: Core, w: word, n: nat, a: addr)
    requires Sound(c) && n >= 2 && Spared(c, n, a)
    ensures ByteAt(PushWord(c, w), a) == ByteAt(c, a) && Spared(PushWord(c, w), n - 2, a)
  {
    hide Push, Spared, ByteAt;
    PushSpares(c, Hi(w), n, a);
    PushSpares(Push(c, Hi(w)), Lo(w), n - 1, a);
  }

  lemma PushKeepsRegisters(c: Core, v: byte)
    requires Sound(c)
    ensures var d := Push(c, v); d.pc == c.pc && d.k == c.k && d.p == c.p
  {
  }

  lemma WordKeepsRegisters(c: Core, w: word)
    requires Sound(c)
    ensures var d := PushWord(c, w); d.pc == c.pc && d.k == c.k && d.p == c.p
  {
  }

  /** A short call goes to the word after its opcode. */
  lemma NearArrives(c: Core)
    requires Sound(c) && FrameClear(c, Near)
    ensures Arrived(c, Enter(c, Near), Near)
  {
    hide Spared, Load, Push, PushWord;
    PlusOne(c.pc, 1);
    var b := Skip(Skip(c));
    MovedSpares(c, b, 2, CodeAddr(c, 2));
    WordSpares(b, b.pc, 2, CodeAddr(c, 2));
    WordKeepsRegisters(b, b.pc);
  }

  lemma IndexedArrives(c: Core, x: word)
    requires Sound(c) && FrameClear(c, Indexed(x))
    ensures Arrived(c, Enter(c, Indexed(x)), Indexed(x))
  {
    hide Spared, Load, Push, PushWord;
    PlusOne(c.pc, 1);
    var b := Skip(Skip(c));
    var t := TableAt(c, x);
    MovedSpares(c, b, 2, CodeAddr(c, 2));
    MovedSpares(c, b, 2, BankAddr(c.k, t));
    MovedSpares(c, b, 2, BankAddr(c.k, Plus(t, 1)));
    WordSpares(b, b.pc, 2, CodeAddr(c, 2));
    WordSpares(b, b.pc, 2, BankAddr(c.k, t));
    WordSpares(b, b.pc, 2, BankAddr(c.k, Plus(t, 1)));
    WordKeepsRegisters(b, b.pc);
    assert t == Plus(Word(Operand(c, 1), Operand(c, 2)), x);
  }

  lemma FarArrives(c: Core)
    requires Sound(c) && FrameClear(c, Far)
    ensures Arrived(c, Enter(c, Far), Far)
  {
    hide Spared, Load, Push, PushWord;
    PlusOne(c.pc, 1);
    PlusOne(c.pc, 2);
    var b := Skip(Skip(Skip(c)));
    MovedSpares(c, b, 3, CodeAddr(c, 3));
    PushSpares(b, b.k, 3, CodeAddr(c, 3));
    PushKeepsRegisters(b, b.k);
    var d := Push(b, b.k);
    WordSpares(d, b.pc, 2, CodeAddr(c, 3));
    WordKeepsRegisters(d, b.pc);
  }

  lemma HandlerFlagsStart(p: byte)
    ensures HandlerStarts(p, HandlerFlags(p))
  {
    hide HandlerStarts;
    var low, i, d, high := p % 4, p / 4 % 2, p / 8 % 2, p / 16;
    assert p == low + 4 * i + 8 * d + 16 * high;
    assert HandlerFlags(p) == low + 4 + 16 * high;
    FourBits(low, i, d, high);
    FourBits(low, 1, 0, high);
    assert HandlerStarts(p, low + 4 + 16 * high) by { StartsFrom(p, low, high); }
  }

  lemma StartsFrom(p: byte, low: nat, high: nat)
    requires low == p % 4 && high == p / 16
    ensures low + 4 + 16 * high < 0x100 && HandlerStarts(p, low + 4 + 16 * high)
  {
    FourBits(low, 1, 0, high);
  }

  lemma FourBits(low: nat, i: nat, d: nat, high: nat)
    requires low < 4 && i < 2 && d < 2 && high < 16
    ensures var q := low + 4 * i + 8 * d + 16 * high;
            q % 4 == low && q / 4 % 2 == i && q / 8 % 2 == d && q / 16 == high
  {
    var q := low + 4 * i + 8 * d + 16 * high;
    assert q / 4 == i + 2 * d + 4 * high;
    assert q / 8 == d + 2 * high;
  }

  lemma InterruptSpares(c: Core, flags: byte, vector: word, a: addr)
    requires Sound(c) && Spared(c, if c.e then 3 else 4, a)
    ensures ByteAt(Interrupted(c, flags, vector), a) == ByteAt(c, a)
  {
    hide Spared, Load, Push, PushWord, HandlerFlags;
    if c.e {
      WordSpares(c, c.pc, 3, a);
      PushSpares(PushWord(c, c.pc), flags, 1, a);
    } else {
      PushSpares(c, c.k, 4, a);
      var b := Push(c, c.k).(k := 0);
      MovedSpares(Push(c, c.k), b, 3, a);
      WordSpares(b, b.pc, 3, a);
      PushSpares(PushWord(b, b.pc), flags, 1, a);
    }
  }

  lemma InterruptRegisters(c: Core, flags: byte, vector: word)
    requires Sound(c)
    ensures var d := Interrupted(c, flags, vector);
            && d.k == (if c.e then c.k else 0) && d.p == HandlerFlags(c.p)
            && d.pc == ByteAt(d, vector) as int + 256 * ByteAt(d, vector as int + 1) as int
  {
    hide Load, Push, PushWord, HandlerFlags;
    PushKeepsRegisters(c, c.k);
    var b := if c.e then c else Push(c, c.k).(k := 0);
    WordKeepsRegisters(b, b.pc);
    PushKeepsRegisters(PushWord(b, b.pc), flags);
  }

  lemma VectorSpared(c: Core, kind: Kind)
    requires Sound(c) && IsInterrupt(kind) && FrameClear(c, kind)
    ensures Spared(c, PushCount(c, kind), Vector(c, kind))
    ensures Spared(c, PushCount(c, kind), Vector(c, kind) as int + 1)
  {
    hide Spared;
    if kind.Break? || kind.CoProc? {
      RomIsSpared(c, PushCount(c, kind), Vector(c, kind));
      RomIsSpared(c, PushCount(c, kind), Vector(c, kind) as int + 1);
    }
  }

  /** Every call whose frame does not overwrite the bytes it fetches goes where those bytes say, in both
      modes: to its operand, to the table entry at its operand plus the index, or to the handler at the
      vector, with interrupts disabled and decimal mode off. */
  lemma Arrives(c: Core, kind: Kind)
    requires Sound(c) && FrameClear(c, kind)
    ensures Arrived(c, Enter(c, kind), kind)
  {
    hide Spared, Load, Interrupted, HandlerFlags, Jsr, Jsl, JsrIndexed;
    match kind
    case Near => NearArrives(c);
    case Indexed(x) => IndexedArrives(c, x);
    case Far => FarArrives(c);
    case _ =>
      var v, n := Vector(c, kind), PushCount(c, kind);
      var b := if kind.Hardware? then c else Skip(Skip(c));
      var flags := if kind.Break? && c.e then WithBreak(c.p) else c.p;
      HandlerFlagsStart(c.p);
      VectorSpared(c, kind);
      MovedSpares(c, b, n, v);
      MovedSpares(c, b, n, v as int + 1);
      InterruptSpares(b, flags, v, v);
      InterruptSpares(b, flags, v, v as int + 1);
      InterruptRegisters(b, flags, v);
  }

  /** With the stack in RAM and the code or the table in ROM, nothing needs to be asked of the frame. */
  lemma RomCodeIsClear(c: Core, kind: Kind)
    requires Sound(c) && 1 <= c.k < 0x40 && (kind.Hardware? ==> kind.vector >= 0x8000)
    ensures FrameClear(c, kind)
  {
    hide Resolve, Below, Spared;
    var n := PushCount(c, kind);
    RomIsSpared(c, n, CodeAddr(c, 2));
    RomIsSpared(c, n, CodeAddr(c, 3));
    match kind {
      case Indexed(x) =>
        RomIsSpared(c, n, BankAddr(c.k, TableAt(c, x)));
        RomIsSpared(c, n, BankAddr(c.k, Plus(TableAt(c, x), 1)));
      case Hardware(vector) =>
        RomIsSpared(c, n, vector);
        RomIsSpared(c, n, vector as int + 1);
      case _ =>
    }
  }

  /** The state before the opcode was fetched. */
  function AtOpcode(c: Core): Core { c.(pc := Plus(c.pc, 0xFFFF)) }

  lemma OpcodeFetched(c: Core)
    ensures Skip(AtOpcode(c)) == c
  {
  }

  // ------------------------------------------------------------------ interrupts in emulation mode

  /** The flags in the frame: BRK, and nothing else, sets bit 5 in them. */
  predicate FlagsInFrame(p: byte, f: byte, kind: Kind) {
    if kind.Break? then f / 32 % 2 == 1 && f % 32 == p % 32 && f / 64 == p / 64 else f == p
  }

  /** In emulation mode an interrupt pushes the place after it and the flags, and no bank. */
  lemma EmulationEntered(c: Core, kind: Kind, base: word, used: nat, n: nat) returns (f: byte)
    requires Taken(c, base, used, n) && used + 3 <= n && c.e && IsInterrupt(kind)
    ensures FlagsInFrame(c.p, f, kind) && Taken(Enter(c, kind), base, used + 3, n)
    ensures var w := Following(c, kind);
            Pushed(Enter(c, kind), base, used + 3) == Pushed(c, base, used) + [Hi(w), Lo(w), f]
  {
    hide Room, Slot, Store, Down, Pushed, Load, HandlerFlags, Plus, Hi, Lo, Push, PushWord;
    f := if kind.Break? then WithBreak(c.p) else c.p;
    PlusOne(c.pc, 1);
    var b := if kind.Hardware? then c else Skip(Skip(c));
    var w := PushWord(b, b.pc);
    OtherRegisters(c, b, base, used, n);
    WordAdds(b, b.pc, base, used, n);
    PushAdds(w, f, base, used + 2, n);
    OtherRegisters(Push(w, f), Enter(c, kind), base, used + 3, n);
    assert Pushed(c, base, used) + [Hi(b.pc), Lo(b.pc)] + [f] == Pushed(c, base, used) + [Hi(b.pc), Lo(b.pc), f];
  }

  /** And a handler that leaves the stack as it found it returns by RTI to that place, with the flags of
      the frame and in the bank it is then in. */
  lemma EmulationInterruptReturns(c: Core, kind: Kind, r: Core, base: word, used: nat, n: nat)
    requires Taken(c, base, used, n) && used + 3 <= n && c.e && IsInterrupt(kind)
    requires Taken(r, base, used + 3, n) && r.e && r.bank == c.bank
    requires Pushed(r, base, used + 3) == Pushed(Enter(c, kind), base, used + 3)
    ensures var d := Leave(r, kind);
            && d.s == c.s && d.pc == Following(c, kind) && FlagsInFrame(c.p, d.p, kind) && d.k == r.k
            && Taken(d, base, used, n) && Pushed(d, base, used) == Pushed(c, base, used)
  {
    hide Room, Slot, Pushed, Load, Pull, Word, Lo, Hi, Plus, Enter, Push, FlagsInFrame;
    var xs, w := Pushed(c, base, used), Following(c, kind);
    var f := EmulationEntered(c, kind, base, used, n);
    WordOf(w);
    var a := Skip(Skip(r));
    OtherRegisters(r, a, base, used + 3, n);
    assert xs + [Hi(w), Lo(w), f] == xs + [Hi(w), Lo(w)] + [f];
    PullFrame(a, base, used + 2, n, xs + [Hi(w), Lo(w)], f);
    var b := Pull(a).0;
    PullWord(b, base, used, n, xs, Hi(w), Lo(w));
    var b2 := Pull(Pull(b).0).0;
    OtherRegisters(b2, b2.(p := f, pc := w), base, used, n);
  }
}
