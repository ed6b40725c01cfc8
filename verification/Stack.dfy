/** The processor's stack: subroutine calls, software and hardware interrupts and their returns. Calls
    may nest to any depth; what is proved is that every return finds the frame its call pushed. */
module Stack {
  import opened Bytes
  import opened Memory

  /** The registers that calls and interrupts touch, with the memories and the stack bank. */
  datatype Core = Core(s: word, pc: word, k: byte, p: byte, e: bool, mem: Mem, bank: byte)

  datatype Option<T> = None | Some(value: T)

  // ------------------------------------------------------------------ pushing and pulling

  /** In emulation mode the high byte of the stack pointer is stuck at 1. */
  function Wrap(s: word, e: bool): word { if e then 0x0100 + s % 256 else s }

  function Down(s: word, e: bool): word { Wrap(if s == 0 then 0xFFFF else s - 1, e) }

  function Up(s: word, e: bool): word { Wrap(if s == 0xFFFF then 0 else s + 1, e) }

  /** Emulation mode keeps the stack pointer in page 1. */
  predicate InPage(s: word, e: bool) { e ==> 0x0100 <= s < 0x0200 }

  predicate Sound(c: Core) { Sized(c.mem) && InPage(c.s, c.e) }

  function Push(c: Core, v: byte): (d: Core)
    requires Sound(c)
    ensures Sound(d) && d.e == c.e && d.bank == c.bank
  {
    c.(mem := Store(c.mem, c.bank, c.s, v), s := Down(c.s, c.e))
  }

  function Pull(c: Core): (r: (Core, byte))
    requires Sound(c)
    ensures Sound(r.0) && r.0.e == c.e && r.0.bank == c.bank
  {
    var d := c.(s := Up(c.s, c.e));
    (d, Load(d.mem, d.bank, d.s))
  }

  function PushWord(c: Core, w: word): (d: Core)
    requires Sound(c)
    ensures Sound(d) && d.e == c.e && d.bank == c.bank
  {
    Push(Push(c, Hi(w)), Lo(w))
  }

  // ------------------------------------------------------------------ instructions

  /** The byte at the program counter. */
  function CodeByte(c: Core): byte
    requires Sound(c)
  {
    Load(c.mem, c.bank, BankAddr(c.k, c.pc))
  }

  function Skip(c: Core): Core { c.(pc := Plus(c.pc, 1)) }

  /** The flags an interrupt handler starts with: interrupts disabled, decimal mode off. */
  function HandlerFlags(p: byte): byte {
    var q := if p / 4 % 2 == 0 then p + 4 else p;
    if q / 8 % 2 == 1 then q - 8 else q
  }

  function WithBreak(p: byte): byte { if p / 32 % 2 == 0 then p + 32 else p }

  function Jsr(c: Core): (d: Core)
    requires Sound(c)
    ensures Sound(d) && d.e == c.e && d.bank == c.bank
  {
    var lo := CodeByte(c);
    var c := Skip(c);
    var d := PushWord(c, c.pc);
    d.(pc := Word(lo, CodeByte(d)))
  }

  /** JSR through a table of addresses in the program bank, at an offset in the index register. */
  function JsrIndexed(c: Core, x: word): (d: Core)
    requires Sound(c)
    ensures Sound(d) && d.e == c.e && d.bank == c.bank
  {
    var lo := CodeByte(c);
    var c := Skip(c);
    var d := PushWord(c, c.pc);
    var at := Plus(Word(lo, CodeByte(d)), x);
    d.(pc := Word(Load(d.mem, d.bank, BankAddr(d.k, at)), Load(d.mem, d.bank, BankAddr(d.k, Plus(at, 1)))))
  }

  function Rts(c: Core): (d: Core)
    requires Sound(c)
    ensures Sound(d) && d.e == c.e && d.bank == c.bank
  {
    var (c, lo) := Pull(Skip(c));
    var (c, hi) := Pull(c);
    Skip(c.(pc := Word(lo, hi)))
  }

  function Jsl(c: Core): (d: Core)
    requires Sound(c)
    ensures Sound(d) && d.e == c.e && d.bank == c.bank
  {
    var lo := CodeByte(c);
    var c := Skip(c);
    var hi := CodeByte(c);
    var c := Skip(c);
    var d := PushWord(Push(c, c.k), c.pc);
    d.(k := CodeByte(d), pc := Word(lo, hi))
  }

  function Rtl(c: Core): (d: Core)
    requires Sound(c)
    ensures Sound(d) && d.e == c.e && d.bank == c.bank
  {
    var (c, lo) := Pull(Skip(c));
    var (c, hi) := Pull(c);
    var (c, k) := Pull(c);
    Skip(c.(pc := Word(lo, hi), k := k))
  }

  /** Pushes the frame of an interrupt, with the given flags in it, and goes to its handler. */
  function Interrupted(c: Core, flags: byte, vector: word): (d: Core)
    requires Sound(c)
    ensures Sound(d) && d.e == c.e && d.bank == c.bank
  {
    var b := if c.e then c else Push(c, c.k).(k := 0);
    var d := Push(PushWord(b, b.pc), flags);
    d.(p := HandlerFlags(d.p),
       pc := Word(Load(d.mem, d.bank, vector), Load(d.mem, d.bank, vector as int + 1)))
  }

  function Brk(c: Core): (d: Core)
    requires Sound(c)
    ensures Sound(d) && d.e == c.e && d.bank == c.bank
  {
    Interrupted(Skip(c), if c.e then WithBreak(c.p) else c.p, if c.e then 0xFFFE else 0xFFE6)
  }

  function Cop(c: Core): (d: Core)
    requires Sound(c)
    ensures Sound(d) && d.e == c.e && d.bank == c.bank
  {
    Interrupted(Skip(c), c.p, if c.e then 0xFFF4 else 0xFFE4)
  }

  function Rti(c: Core): (d: Core)
    requires Sound(c)
    ensures Sound(d) && d.e == c.e && d.bank == c.bank
  {
    var (c, p) := Pull(Skip(c));
    var (c, lo) := Pull(c);
    var (c, hi) := Pull(c);
    var d := c.(p := p, pc := Word(lo, hi));
    if d.e then d else
      var (d, k) := Pull(d);
      d.(k := k)
  }

  // ------------------------------------------------------------------ nested runs

  /** The ways into a routine: JSR, JSR indexed by a register, JSL, BRK, COP, and a hardware interrupt
      through a vector. */
  datatype Kind = Near | Indexed(x: word) | Far | Break | CoProc | Hardware(vector: word)

  /** The calls that return by RTS, to the bank the program is then in. */
  predicate IsNear(kind: Kind) { kind.Near? || kind.Indexed? }

  predicate IsInterrupt(kind: Kind) { kind.Break? || kind.CoProc? || kind.Hardware? }

  /** One step of a run: an instruction that leaves the stack alone and stays in its bank, a jump to
      another bank, a byte pushed by one instruction and pulled by another with a run between them, or
      a whole call with everything up to and including its return. */
  datatype Item =
    | Local(pc: word, p: byte, writes: seq<(addr, byte)>)
    | LongJump(pc: word, k: byte)
    | Held(v: byte, body: seq<Item>, pc: word, p: byte)
    | Nest(kind: Kind, body: seq<Item>)

  /** The instruction for the call is at the program counter; a hardware interrupt needs none. */
  predicate Calls(c: Core, kind: Kind)
    requires Sound(c)
  {
    match kind
    case Near => CodeByte(c) == 0x20
    case Indexed(_) => CodeByte(c) == 0xFC
    case Far => CodeByte(c) == 0x22
    case Break => CodeByte(c) == 0x00
    case CoProc => CodeByte(c) == 0x02
    case Hardware(_) => true
  }

  /** A call that can be nested: interrupts return to their bank in native mode only. */
  predicate Starts(c: Core, kind: Kind)
    requires Sound(c)
  {
    Calls(c, kind) && (IsInterrupt(kind) ==> !c.e)
  }

  function Enter(c: Core, kind: Kind): (d: Core)
    requires Sound(c)
    ensures Sound(d) && d.e == c.e && d.bank == c.bank
  {
    match kind
    case Near => Jsr(Skip(c))
    case Indexed(x) => JsrIndexed(Skip(c), x)
    case Far => Jsl(Skip(c))
    case Break => Brk(Skip(c))
    case CoProc => Cop(Skip(c))
    case Hardware(vector) => Interrupted(c, c.p, vector)
  }

  /** The matching return instruction is at the program counter. */
  predicate Ends(c: Core, kind: Kind)
    requires Sound(c)
  {
    CodeByte(c) == if IsNear(kind) then 0x60 else if kind.Far? then 0x6B else 0x40
  }

  function Leave(c: Core, kind: Kind): (d: Core)
    requires Sound(c)
    ensures Sound(d) && d.e == c.e && d.bank == c.bank
  {
    if IsNear(kind) then Rts(Skip(c))
    else if kind.Far? then Rtl(Skip(c))
    else Rti(Skip(c))
  }

  function FrameSize(kind: Kind): nat {
    if IsNear(kind) then 2 else if kind.Far? then 3 else 4
  }

  /** The most stack a run uses at any moment. */
  function Depth(run: seq<Item>): nat
    decreases run
  {
    if run == [] then 0 else
      var rest := Depth(run[1..]);
      var here := match run[0]
                  case Nest(kind, body) => FrameSize(kind) + Depth(body)
                  case Held(_, body, _, _) => 1 + Depth(body)
                  case _ => 0;
      if here > rest then here else rest
  }

  /** The address of the j-th byte pushed since the stack pointer was `base`. */
  function Slot(base: word, e: bool, j: nat): word
    requires InPage(base, e) && j <= if e then 256 else 0x1_0000
  {
    if e then (if j <= base - 0x0100 then base - j else base as int - j + 256)
    else if j <= base then base - j else (base as int - j + 0x1_0000) % 0x1_0000
  }

  /** The stack from `base` down has room for `n` bytes, all in RAM. */
  predicate Room(c: Core, base: word, n: nat) {
    && InPage(base, c.e) && n <= (if c.e then 256 else 0x1_0000)
    && forall j: nat :: j < n ==> InRam(Slot(base, c.e, j), c.bank)
  }

  /** `used` of at least `n` bytes of room are taken. */
  predicate Taken(c: Core, base: word, used: nat, n: nat) {
    Sound(c) && used <= n && Room(c, base, n) && Room(c, base, used) && c.s == Slot(base, c.e, used)
  }

  /** The bytes on the stack, in the order they were pushed. */
  function Pushed(c: Core, base: word, n: nat): (bs: seq<byte>)
    requires Sound(c) && Room(c, base, n)
    ensures |bs| == n
  {
    seq(n, j requires 0 <= j < n => Load(c.mem, c.bank, Slot(base, c.e, j)))
  }

  function WriteAll(c: Core, writes: seq<(addr, byte)>): (d: Core)
    requires Sound(c)
    ensures Sound(d) && d.e == c.e && d.bank == c.bank
    decreases |writes|
  {
    if writes == [] then c
    else WriteAll(c.(mem := Store(c.mem, c.bank, writes[0].0, writes[0].1)), writes[1..])
  }

  /** The frame a call pushes, first byte first. */
  function Frame(c: Core, kind: Kind): (f: seq<byte>)
    ensures |f| == FrameSize(kind)
  {
    match kind
    case Near => var w := Plus(c.pc, 2); [Hi(w), Lo(w)]
    case Indexed(_) => var w := Plus(c.pc, 2); [Hi(w), Lo(w)]
    case Far => var w := Plus(c.pc, 3); [c.k, Hi(w), Lo(w)]
    case Hardware(_) => [c.k, Hi(c.pc), Lo(c.pc), c.p]
    case _ => var w := Plus(c.pc, 2); [c.k, Hi(w), Lo(w), c.p]
  }

  lemma SlotNext(base: word, e: bool, j: nat)
    requires InPage(base, e) && j < if e then 256 else 0x1_0000
    ensures Down(Slot(base, e, j), e) == Slot(base, e, j + 1)
    ensures Up(Slot(base, e, j + 1), e) == Slot(base, e, j)
    ensures InPage(Slot(base, e, j), e)
  {
    if e {
      Steps(Slot(base, e, j));
      Steps(Slot(base, e, j + 1));
    }
  }

  lemma Steps(s: word)
    requires 0x0100 <= s < 0x0200
    ensures Down(s, true) == if s == 0x0100 then 0x01FF else s - 1
    ensures Up(s, true) == if s == 0x01FF then 0x0100 else s + 1
  {
  }

  lemma SlotsDiffer(base: word, e: bool, i: nat, j: nat)
    requires InPage(base, e) && i < j < if e then 256 else 0x1_0000
    ensures Slot(base, e, i) != Slot(base, e, j)
  {
  }

  /** Distinct stack addresses in RAM are distinct cells. */
  lemma StackCellsDiffer(a: word, b: word, bank: byte)
    requires InRam(a, bank) && InRam(b, bank) && a != b
    ensures !Aliases(a, b, bank)
  {
  }

  /** A push adds one byte to the stack. */
  lemma PushAdds(c: Core, v: byte, base: word, used: nat, n: nat)
    requires Taken(c, base, used, n) && used < n
    ensures Taken(Push(c, v), base, used + 1, n)
    ensures Pushed(Push(c, v), base, used + 1) == Pushed(c, base, used) + [v]
  {
    hide InRam, Aliases, Slot, Down, Load, Store;
    var d := Push(c, v);
    SlotNext(base, c.e, used);
    forall j: nat | j <= used
      ensures Load(d.mem, c.bank, Slot(base, c.e, j))
           == if j == used then v else Load(c.mem, c.bank, Slot(base, c.e, j))
    {
      StoreInStack(c, v, base, used, n, j);
    }
  }

  lemma StoreInStack(c: Core, v: byte, base: word, used: nat, n: nat, j: nat)
    requires Taken(c, base, used, n) && j <= used < n
    ensures Load(Store(c.mem, c.bank, c.s, v), c.bank, Slot(base, c.e, j))
         == if j == used then v else Load(c.mem, c.bank, Slot(base, c.e, j))
  {
    hide InRam, Slot, Load, Store, InVram, InIo, Resolve;
    var a := Slot(base, c.e, j);
    RamIsNotIo(a, c.bank);
    RamIsNotIo(c.s, c.bank);
    ReadAfterWrite(c.mem, c.bank, c.s, v, a);
    if j < used {
      SlotsDiffer(base, c.e, j, used);
      StackCellsDiffer(c.s, a, c.bank);
    }
  }

  lemma RamIsNotIo(a: addr, bank: byte)
    requires InRam(a, bank)
    ensures !InIo(a, bank)
  {
  }

  /** A pull takes the last byte off the stack and returns it. */
  lemma PullTakes(c: Core, base: word, used: nat, n: nat)
    requires Taken(c, base, used, n) && used > 0
    ensures Taken(Pull(c).0, base, used - 1, n)
    ensures Pull(c).1 == Pushed(c, base, used)[used - 1]
    ensures Pushed(Pull(c).0, base, used - 1) == Pushed(c, base, used)[..used - 1]
  {
    hide InRam, Slot, Up, Load;
    SlotNext(base, c.e, used - 1);
  }

  /** Only memory, the stack bank and the mode decide what is on the stack. */
  lemma OtherRegisters(c: Core, d: Core, base: word, used: nat, n: nat)
    requires Taken(c, base, used, n) && d == c.(pc := d.pc, k := d.k, p := d.p)
    ensures Taken(d, base, used, n) && Pushed(d, base, used) == Pushed(c, base, used)
  {
    hide InRam, Slot, Load;
  }

  lemma WordAdds(c: Core, w: word, base: word, used: nat, n: nat)
    requires Taken(c, base, used, n) && used + 2 <= n
    ensures Taken(PushWord(c, w), base, used + 2, n)
    ensures Pushed(PushWord(c, w), base, used + 2) == Pushed(c, base, used) + [Hi(w), Lo(w)]
  {
    hide Room, Slot, Push, Pushed;
    PushAdds(c, Hi(w), base, used, n);
    PushAdds(Push(c, Hi(w)), Lo(w), base, used + 1, n);
  }

  lemma InterruptAdds(c: Core, flags: byte, vector: word, base: word, used: nat, n: nat)
    requires Taken(c, base, used, n) && used + 4 <= n && !c.e
    ensures var d := Interrupted(c, flags, vector);
            && Taken(d, base, used + 4, n)
            && Pushed(d, base, used + 4) == Pushed(c, base, used) + [c.k, Hi(c.pc), Lo(c.pc), flags]
  {
    hide Room, Slot, Store, Down, Pushed, Load, HandlerFlags;
    var b0 := Push(c, c.k);
    PushAdds(c, c.k, base, used, n);
    var b := b0.(k := 0);
    OtherRegisters(b0, b, base, used + 1, n);
    WordAdds(b, b.pc, base, used + 1, n);
    var w := PushWord(b, b.pc);
    PushAdds(w, flags, base, used + 3, n);
    OtherRegisters(Push(w, flags), Interrupted(c, flags, vector), base, used + 4, n);
    assert Pushed(c, base, used) + [c.k] + [Hi(c.pc), Lo(c.pc)] + [flags]
        == Pushed(c, base, used) + [c.k, Hi(c.pc), Lo(c.pc), flags];
  }

  lemma WordOf(w: word)
    ensures Word(Lo(w), Hi(w)) == w
  {
  }

  lemma PlusOne(w: word, n: nat)
    requires n < 0x1_0000
    ensures Plus(Plus(w, n), 1) == Plus(w, n + 1)
  {
  }

  /** A call pushes exactly its frame. */
  lemma Entered(c: Core, kind: Kind, base: word, used: nat, n: nat)
    requires Taken(c, base, used, n) && used + FrameSize(kind) <= n && Starts(c, kind)
    ensures Taken(Enter(c, kind), base, used + FrameSize(kind), n)
    ensures Pushed(Enter(c, kind), base, used + FrameSize(kind)) == Pushed(c, base, used) + Frame(c, kind)
  {
    hide Room, Slot, Push, PushWord, Pushed, Load, Interrupted, CodeByte, Plus, Hi, Lo;
    PlusOne(c.pc, 1);
    PlusOne(c.pc, 2);
    var a := Skip(c);
    var b := Skip(a);
    OtherRegisters(c, a, base, used, n);
    OtherRegisters(a, b, base, used, n);
    match kind
    case Near =>
      WordAdds(b, b.pc, base, used, n);
      OtherRegisters(PushWord(b, b.pc), Jsr(a), base, used + 2, n);
    case Indexed(x) =>
      WordAdds(b, b.pc, base, used, n);
      OtherRegisters(PushWord(b, b.pc), JsrIndexed(a, x), base, used + 2, n);
    case Far =>
      var d := Skip(b);
      OtherRegisters(b, d, base, used, n);
      PushAdds(d, d.k, base, used, n);
      WordAdds(Push(d, d.k), d.pc, base, used + 1, n);
      OtherRegisters(PushWord(Push(d, d.k), d.pc), Jsl(a), base, used + 3, n);
    case Break => InterruptAdds(b, b.p, 0xFFE6, base, used, n);
    case CoProc => InterruptAdds(b, b.p, 0xFFE4, base, used, n);
    case Hardware(vector) => InterruptAdds(c, c.p, vector, base, used, n);
  }

  /** Where a call comes back to. */
  function Following(c: Core, kind: Kind): word {
    match kind
    case Near => Plus(c.pc, 3)
    case Indexed(_) => Plus(c.pc, 3)
    case Far => Plus(c.pc, 4)
    case Hardware(_) => c.pc
    case _ => Plus(c.pc, 2)
  }

  /** What is back in the registers in `d` after a call made in `c` has returned: the place, except
      for JSR the bank, and for interrupts the flags. What is not restored is as the body left it in
      `r`. */
  predicate Restored(c: Core, r: Core, d: Core, kind: Kind) {
    && d.s == c.s && d.e == c.e && d.bank == c.bank && d.mem == r.mem
    && d.pc == Following(c, kind)
    && d.k == (if IsNear(kind) then r.k else c.k)
    && d.p == (if IsNear(kind) || kind.Far? then r.p else c.p)
  }

  /** Pulling `m` bytes one by one returns the last `m` of the stack, last first. */
  lemma PullFrame(c: Core, base: word, used: nat, n: nat, xs: seq<byte>, x: byte)
    requires Taken(c, base, used + 1, n) && Pushed(c, base, used + 1) == xs + [x]
    ensures Pull(c).1 == x && Taken(Pull(c).0, base, used, n) && Pushed(Pull(c).0, base, used) == xs
    ensures Pull(c).0 == c.(s := Pull(c).0.s)
  {
    hide Room, Slot, Pushed, Load;
    PullTakes(c, base, used + 1, n);
    assert (xs + [x])[..used] == xs;
  }

  /** Two pulls return a word that was pushed high byte first. */
  lemma PullWord(c: Core, base: word, used: nat, n: nat, xs: seq<byte>, hi: byte, lo: byte)
    requires Taken(c, base, used + 2, n) && Pushed(c, base, used + 2) == xs + [hi, lo]
    ensures var a := Pull(c);
            var b := Pull(a.0);
            && a.1 == lo && b.1 == hi && b.0 == c.(s := b.0.s)
            && Taken(b.0, base, used, n) && Pushed(b.0, base, used) == xs
  {
    hide Room, Slot, Pushed, Load, Pull;
    assert xs + [hi, lo] == xs + [hi] + [lo];
    PullFrame(c, base, used + 1, n, xs + [hi], lo);
    PullFrame(Pull(c).0, base, used, n, xs, hi);
  }

  /** A return takes its frame off the stack and goes on where the call came from. */
  lemma Left(c: Core, r: Core, kind: Kind, base: word, used: nat, n: nat)
    requires Taken(c, base, used, n) && used + FrameSize(kind) <= n && Starts(c, kind)
    requires Taken(r, base, used + FrameSize(kind), n) && r.e == c.e && r.bank == c.bank
    requires Pushed(r, base, used + FrameSize(kind)) == Pushed(c, base, used) + Frame(c, kind)
    ensures Taken(Leave(r, kind), base, used, n) && Restored(c, r, Leave(r, kind), kind)
    ensures Pushed(Leave(r, kind), base, used) == Pushed(c, base, used)
  {
    hide Room, Slot, Pull, Pushed, Load, CodeByte;
    var a := Skip(Skip(r));
    OtherRegisters(r, a, base, used + FrameSize(kind), n);
    match kind
    case Near => NearLeft(c, r, kind, a, base, used, n);
    case Indexed(_) => NearLeft(c, r, kind, a, base, used, n);
    case Far => FarLeft(c, r, a, base, used, n);
    case _ => InterruptLeft(c, r, kind, a, base, used, n);
  }

  lemma NearLeft(c: Core, r: Core, kind: Kind, a: Core, base: word, used: nat, n: nat)
    requires IsNear(kind) && Taken(c, base, used, n) && Taken(a, base, used + 2, n) && a == Skip(Skip(r))
    requires r.e == c.e && r.bank == c.bank
    requires Pushed(a, base, used + 2) == Pushed(c, base, used) + Frame(c, kind)
    ensures Taken(Rts(Skip(r)), base, used, n) && Restored(c, r, Rts(Skip(r)), kind)
    ensures Pushed(Rts(Skip(r)), base, used) == Pushed(c, base, used)
  {
    hide Room, Slot, Pushed, Load, Pull, Word, Lo, Hi, Plus;
    var w := Plus(c.pc, 2);
    WordOf(w);
    PlusOne(c.pc, 2);
    PullWord(a, base, used, n, Pushed(c, base, used), Hi(w), Lo(w));
    OtherRegisters(Pull(Pull(a).0).0, Rts(Skip(r)), base, used, n);
  }

  lemma FarLeft(c: Core, r: Core, a: Core, base: word, used: nat, n: nat)
    requires Taken(c, base, used, n) && Taken(a, base, used + 3, n) && a == Skip(Skip(r))
    requires r.e == c.e && r.bank == c.bank
    requires Pushed(a, base, used + 3) == Pushed(c, base, used) + Frame(c, Far)
    ensures Taken(Rtl(Skip(r)), base, used, n) && Restored(c, r, Rtl(Skip(r)), Far)
    ensures Pushed(Rtl(Skip(r)), base, used) == Pushed(c, base, used)
  {
    hide Room, Slot, Pushed, Load, Pull, Word, Lo, Hi, Plus;
    var xs, w := Pushed(c, base, used), Plus(c.pc, 3);
    WordOf(w);
    PlusOne(c.pc, 3);
    assert xs + [c.k, Hi(w), Lo(w)] == xs + [c.k] + [Hi(w), Lo(w)];
    PullWord(a, base, used + 1, n, xs + [c.k], Hi(w), Lo(w));
    var b := Pull(Pull(a).0).0;
    PullFrame(b, base, used, n, xs, c.k);
    OtherRegisters(Pull(b).0, Rtl(Skip(r)), base, used, n);
  }

  lemma InterruptLeft(c: Core, r: Core, kind: Kind, a: Core, base: word, used: nat, n: nat)
    requires IsInterrupt(kind)
    requires Taken(c, base, used, n) && Taken(a, base, used + 4, n) && a == Skip(Skip(r))
    requires r.e == c.e && r.bank == c.bank && !c.e
    requires Pushed(a, base, used + 4) == Pushed(c, base, used) + Frame(c, kind)
    ensures Taken(Rti(Skip(r)), base, used, n) && Restored(c, r, Rti(Skip(r)), kind)
    ensures Pushed(Rti(Skip(r)), base, used) == Pushed(c, base, used)
  {
    hide Room, Slot, Pushed, Load, Pull, Word, Lo, Hi, Plus;
    var xs, w := Pushed(c, base, used), Following(c, kind);
    WordOf(w);
    assert Frame(c, kind) == [c.k, Hi(w), Lo(w), c.p];
    assert xs + [c.k, Hi(w), Lo(w), c.p] == xs + [c.k, Hi(w), Lo(w)] + [c.p];
    assert xs + [c.k, Hi(w), Lo(w)] == xs + [c.k] + [Hi(w), Lo(w)];
    PullFrame(a, base, used + 3, n, xs + [c.k, Hi(w), Lo(w)], c.p);
    var b := Pull(a).0;
    PullWord(b, base, used + 1, n, xs + [c.k], Hi(w), Lo(w));
    var b2 := Pull(Pull(b).0).0;
    var d := b2.(p := c.p, pc := w);
    OtherRegisters(b2, d, base, used + 1, n);
    PullFrame(d, base, used, n, xs, c.k);
    OtherRegisters(Pull(d).0, Rti(Skip(r)), base, used, n);
  }

  // ------------------------------------------------------------------ runs

  /** The addresses the next `n` pushes go to. */
  ghost function Below(s: word, e: bool, n: nat): set<word>
    decreases n
  {
    if n == 0 then {} else {s} + Below(Down(s, e), e, n - 1)
  }

  /** A write that neither goes to I/O nor reaches a byte that is on the stack. */
  ghost predicate Clear(c: Core, live: set<word>, a: addr) {
    !InIo(a, c.bank) && forall x :: x in live ==> !Aliases(a, x, c.bank)
  }

  /** The state after a run that is properly nested: every call is made by its instruction, its body is
      such a run again and ends at its return instruction, and no other instruction overwrites a byte
      that is on the stack. None for every other run. `live` holds the addresses on the stack. */
  ghost function Exec(c: Core, run: seq<Item>, live: set<word>): (r: Option<Core>)
    requires Sound(c)
    ensures r.Some? ==> Sound(r.value)
    decreases run
  {
    if run == [] then Some(c) else
      match run[0]
      case Local(pc, p, writes) =>
        if exists i :: 0 <= i < |writes| && !Clear(c, live, writes[i].0) then None
        else Exec(WriteAll(c, writes).(pc := pc, p := p), run[1..], live)
      case LongJump(pc, k) => Exec(c.(pc := pc, k := k), run[1..], live)
      case Held(v, body, pc, p) =>
        var r := Exec(Push(c, v), body, live + {c.s});
        if r.None? then None else Exec(Pull(r.value).0.(pc := pc, p := p), run[1..], live)
      case Nest(kind, body) =>
        if !Starts(c, kind) then None else
          var r := Exec(Enter(c, kind), body, live + Below(c.s, c.e, FrameSize(kind)));
          if r.None? || !Ends(r.value, kind) then None
          else Exec(Leave(r.value, kind), run[1..], live)
  }

  /** Every byte pushed since `base` is at an address known to be on the stack. */
  ghost predicate OnStack(live: set<word>, base: word, e: bool, used: nat) {
    InPage(base, e) && used <= (if e then 256 else 0x1_0000) && forall j: nat :: j < used ==> Slot(base, e, j) in live
  }

  lemma {:induction false} BelowOnStack(live: set<word>, base: word, e: bool, used: nat, m: nat)
    requires OnStack(live, base, e, used) && used + m <= if e then 256 else 0x1_0000
    ensures OnStack(live + Below(Slot(base, e, used), e, m), base, e, used + m)
    decreases m
  {
    if m > 0 {
      var s := Slot(base, e, used);
      SlotNext(base, e, used);
      BelowOnStack(live + {s}, base, e, used + 1, m - 1);
      assert live + {s} + Below(Down(s, e), e, m - 1) == live + Below(s, e, m);
    }
  }

  /** What a run keeps: the stack and everything on it, the mode and the stack bank. */
  predicate Balanced(c: Core, d: Core, base: word, used: nat, n: nat) {
    && Taken(c, base, used, n) && Taken(d, base, used, n)
    && d.s == c.s && d.e == c.e && d.bank == c.bank
    && Pushed(d, base, used) == Pushed(c, base, used)
  }

  /** Every properly nested run that the stack has room for leaves the stack as it found it. */
  lemma {:induction false} RunsBalance(c: Core, run: seq<Item>, live: set<word>, base: word, used: nat, n: nat)
    requires Taken(c, base, used, n) && used + Depth(run) <= n
    requires OnStack(live, base, c.e, used) && Exec(c, run, live).Some?
    ensures Balanced(c, Exec(c, run, live).value, base, used, n)
    decreases run
  {
    hide Room, Push, Pull, Enter, Leave, WriteAll, Pushed, Starts, Ends, Slot, Below, Clear, OnStack;
    if run != [] {
      match run[0] {
        case Local(pc, p, writes) =>
          LocalBalances(c, pc, p, writes, live, base, used, n);
          RunsBalance(WriteAll(c, writes).(pc := pc, p := p), run[1..], live, base, used, n);
        case LongJump(pc, k) =>
          OtherRegisters(c, c.(pc := pc, k := k), base, used, n);
          RunsBalance(c.(pc := pc, k := k), run[1..], live, base, used, n);
        case Held(v, body, pc, p) =>
          var d := Push(c, v);
          HeldOnStack(c, v, live, base, used, n);
          RunsBalance(d, body, live + {c.s}, base, used + 1, n);
          var r := Exec(d, body, live + {c.s}).value;
          HeldBalances(c, v, r, pc, p, base, used, n);
          RunsBalance(Pull(r).0.(pc := pc, p := p), run[1..], live, base, used, n);
        case Nest(kind, body) =>
          var d, m := Enter(c, kind), FrameSize(kind);
          var inner := live + Below(c.s, c.e, m);
          Entered(c, kind, base, used, n);
          NestOnStack(c, kind, live, base, used, n);
          RunsBalance(d, body, inner, base, used + m, n);
          var r := Exec(d, body, inner).value;
          Left(c, r, kind, base, used, n);
          RunsBalance(Leave(r, kind), run[1..], live, base, used, n);
      }
    }
  }

  /** Writes that keep clear of the stack leave it as it is. */
  lemma {:induction false} WritesKeepStack(c: Core, writes: seq<(addr, byte)>, live: set<word>,
                                           base: word, used: nat, n: nat)
    requires Taken(c, base, used, n) && OnStack(live, base, c.e, used)
    requires forall i :: 0 <= i < |writes| ==> Clear(c, live, writes[i].0)
    ensures var d := WriteAll(c, writes);
            && Taken(d, base, used, n) && Pushed(d, base, used) == Pushed(c, base, used)
            && d == c.(mem := d.mem)
    decreases |writes|
  {
    hide InRam, InIo, Aliases, Slot, Load, Store;
    if writes != [] {
      var (a, v) := writes[0];
      var d := c.(mem := Store(c.mem, c.bank, a, v));
      assert Clear(c, live, writes[0].0);
      forall j: nat | j < used
        ensures Load(d.mem, c.bank, Slot(base, c.e, j)) == Load(c.mem, c.bank, Slot(base, c.e, j))
      {
        RamIsNotIo(Slot(base, c.e, j), c.bank);
        ReadAfterWrite(c.mem, c.bank, a, v, Slot(base, c.e, j));
      }
      forall i | 0 <= i < |writes| - 1 ensures Clear(d, live, writes[1..][i].0) {
        assert Clear(c, live, writes[i + 1].0);
      }
      WritesKeepStack(d, writes[1..], live, base, used, n);
    }
  }

  lemma LocalBalances(c: Core, pc: word, p: byte, writes: seq<(addr, byte)>, live: set<word>,
                      base: word, used: nat, n: nat)
    requires Taken(c, base, used, n) && OnStack(live, base, c.e, used)
    requires forall i :: 0 <= i < |writes| ==> Clear(c, live, writes[i].0)
    ensures Balanced(c, WriteAll(c, writes).(pc := pc, p := p), base, used, n)
  {
    hide Slot, Pushed, WriteAll, InRam, InIo, Aliases, Room, OnStack, Clear;
    WritesKeepStack(c, writes, live, base, used, n);
    OtherRegisters(WriteAll(c, writes), WriteAll(c, writes).(pc := pc, p := p), base, used, n);
  }

  lemma HeldOnStack(c: Core, v: byte, live: set<word>, base: word, used: nat, n: nat)
    requires Taken(c, base, used, n) && used < n && OnStack(live, base, c.e, used)
    ensures Taken(Push(c, v), base, used + 1, n) && OnStack(live + {c.s}, base, c.e, used + 1)
    ensures Pushed(Push(c, v), base, used + 1) == Pushed(c, base, used) + [v]
  {
    hide Slot, Pushed, Store, InRam;
    PushAdds(c, v, base, used, n);
  }

  lemma NestOnStack(c: Core, kind: Kind, live: set<word>, base: word, used: nat, n: nat)
    requires Taken(c, base, used, n) && used + FrameSize(kind) <= n && OnStack(live, base, c.e, used)
    ensures OnStack(live + Below(c.s, c.e, FrameSize(kind)), base, c.e, used + FrameSize(kind))
  {
    hide Slot, Below, InRam;
    BelowOnStack(live, base, c.e, used, FrameSize(kind));
  }

  /** The byte pulled after a run is the byte pushed before it. */
  lemma HeldBalances(c: Core, v: byte, r: Core, pc: word, p: byte, base: word, used: nat, n: nat)
    requires Taken(c, base, used, n) && used < n
    requires Balanced(Push(c, v), r, base, used + 1, n)
    ensures Pull(r).1 == v && Balanced(c, Pull(r).0.(pc := pc, p := p), base, used, n)
  {
    hide Slot, Pushed, Store, InRam, Load, Room, Pull;
    PushAdds(c, v, base, used, n);
    PullFrame(r, base, used, n, Pushed(c, base, used), v);
    OtherRegisters(Pull(r).0, Pull(r).0.(pc := pc, p := p), base, used, n);
  }

  /** A call that is properly nested, at any depth: it is entered and left by its own instructions, its
      body leaves the stack alone, and it comes back to the place after the call (for a hardware
      interrupt, to the interrupted instruction) with the stack pointer, the bank and for interrupts
      the flags restored. Only JSR leaves the bank to its subroutine. */
  lemma CallReturns(c: Core, kind: Kind, body: seq<Item>, live: set<word>, base: word, used: nat, n: nat)
    requires Taken(c, base, used, n) && OnStack(live, base, c.e, used)
    requires used + FrameSize(kind) + Depth(body) <= n
    requires Exec(c, [Nest(kind, body)], live).Some?
    ensures Starts(c, kind)
    ensures var d := Exec(c, [Nest(kind, body)], live).value;
            var r := Exec(Enter(c, kind), body, live + Below(c.s, c.e, FrameSize(kind)));
            && r.Some? && Ends(r.value, kind) && d == Leave(r.value, kind)
            && Restored(c, r.value, d, kind)
            && Pushed(d, base, used) == Pushed(c, base, used)
  {
    hide Room, Pushed, Enter, Leave, Starts, Ends, Slot, Below, OnStack, Restored;
    var m := FrameSize(kind);
    var inner := live + Below(c.s, c.e, m);
    Entered(c, kind, base, used, n);
    NestOnStack(c, kind, live, base, used, n);
    var r := Exec(Enter(c, kind), body, inner).value;
    RunsBalance(Enter(c, kind), body, inner, base, used + m, n);
    Left(c, r, kind, base, used, n);
  }

  /** A run without long jumps outside far calls and interrupts. */
  predicate StaysInBank(run: seq<Item>)
    decreases run
  {
    run != [] ==>
      && StaysInBank(run[1..])
      && match run[0]
         case LongJump(_, _) => false
         case Held(_, body, _, _) => StaysInBank(body)
         case Nest(kind, body) => IsNear(kind) ==> StaysInBank(body)
         case _ => true
  }

  /** Such a run ends in the bank it started in, whatever the far calls and interrupts in it did. */
  lemma {:induction false} BankIsKept(c: Core, run: seq<Item>, live: set<word>, base: word, used: nat, n: nat)
    requires Taken(c, base, used, n) && used + Depth(run) <= n
    requires OnStack(live, base, c.e, used) && Exec(c, run, live).Some? && StaysInBank(run)
    ensures Exec(c, run, live).value.k == c.k
    decreases run
  {
    hide Room, Push, Enter, Leave, WriteAll, Pushed, Starts, Ends, Slot, Below, Clear, OnStack;
    if run != [] {
      match run[0] {
        case Local(pc, p, writes) =>
          var d := WriteAll(c, writes).(pc := pc, p := p);
          LocalBalances(c, pc, p, writes, live, base, used, n);
          WritesKeepStack(c, writes, live, base, used, n);
          BankIsKept(d, run[1..], live, base, used, n);
        case Held(v, body, pc, p) =>
          HeldOnStack(c, v, live, base, used, n);
          HeldKeepsBank(c, v);
          RunsBalance(Push(c, v), body, live + {c.s}, base, used + 1, n);
          BankIsKept(Push(c, v), body, live + {c.s}, base, used + 1, n);
          var r := Exec(Push(c, v), body, live + {c.s}).value;
          HeldBalances(c, v, r, pc, p, base, used, n);
          BankIsKept(Pull(r).0.(pc := pc, p := p), run[1..], live, base, used, n);
        case Nest(kind, body) =>
          var m := FrameSize(kind);
          var inner := live + Below(c.s, c.e, m);
          Entered(c, kind, base, used, n);
          NestOnStack(c, kind, live, base, used, n);
          RunsBalance(Enter(c, kind), body, inner, base, used + m, n);
          var r := Exec(Enter(c, kind), body, inner).value;
          Left(c, r, kind, base, used, n);
          if IsNear(kind) {
            JsrKeepsBank(c, kind);
            BankIsKept(Enter(c, kind), body, inner, base, used + m, n);
          }
          BankIsKept(Leave(r, kind), run[1..], live, base, used, n);
      }
    }
  }

  lemma HeldKeepsBank(c: Core, v: byte)
    requires Sound(c)
    ensures Push(c, v).k == c.k
  {
  }

  lemma JsrKeepsBank(c: Core, kind: Kind)
    requires Sound(c) && IsNear(kind)
    ensures Enter(c, kind).k == c.k
  {
  }

  /** A stack nothing has been pushed on yet. */
  lemma EmptyStack(c: Core, n: nat)
    requires Sound(c) && Room(c, c.s, n)
    ensures Taken(c, c.s, 0, n) && OnStack({}, c.s, c.e, 0)
  {
  }

  lemma DepthOfCall(kind: Kind, body: seq<Item>)
    ensures Depth([Nest(kind, body)]) == FrameSize(kind) + Depth(body)
    ensures StaysInBank([Nest(kind, body)]) <==> (IsNear(kind) ==> StaysInBank(body))
  {
    assert [Nest(kind, body)][1..] == [];
  }

  // ------------------------------------------------------------------ room

  predicate RamForStack(bank: byte) { bank == 0 || (bank >= 0x80 && bank % 64 < 16) }

  /** Exactly how deep a stack may grow: in emulation mode page 1, if the stack bank is RAM; in native
      mode down to address 0 or, with any other stack bank, down to $0400. */
  lemma RoomExactly(c: Core, n: nat)
    requires Sound(c)
    ensures Room(c, c.s, n) <==>
            || n == 0
            || (c.e && n <= 256 && RamForStack(c.bank))
            || (!c.e && c.s < 0x7000 && n as int <= if RamForStack(c.bank) then c.s + 1 else c.s - 0x03FF)
  {
    if Room(c, c.s, n) && n > 0 {
      var last := if c.e then n - 1 else if n as int <= c.s + 1 then n - 1 else c.s + 1;
      assert InRam(Slot(c.s, c.e, 0), c.bank) && InRam(Slot(c.s, c.e, last), c.bank);
    }
  }

  // ------------------------------------------------------------------ emulation mode

  /** Any instruction that uses the stack, in any order; `Elsewhere` stands for one that does not. */
  datatype Op =
    | PushByte(v: byte)
    | PullByte
    | SetStack(s: word)
    | Call(kind: Kind)
    | Return(kind: Kind)
    | Elsewhere(pc: word, k: byte, p: byte)

  function Do(c: Core, op: Op): (d: Core)
    requires Sound(c)
    ensures Sound(d) && d.e == c.e && d.bank == c.bank
  {
    match op
    case PushByte(v) => Push(c, v)
    case PullByte => Pull(c).0
    case SetStack(s) => c.(s := Wrap(s, c.e))
    case Call(kind) => Enter(c, kind)
    case Return(kind) => Leave(c, kind)
    case Elsewhere(pc, k, p) => c.(pc := pc, k := k, p := p)
  }

  function DoAll(c: Core, ops: seq<Op>): (d: Core)
    requires Sound(c)
    ensures Sound(d)
    decreases |ops|
  {
    if ops == [] then c else DoAll(Do(c, ops[0]), ops[1..])
  }

  /** Emulation mode is kept, with the stack in page 1, and nothing outside page 1 is overwritten. */
  ghost predicate WithinPageOne(c: Core, d: Core) {
    && Sound(c) && Sound(d) && c.e && d.e && d.bank == c.bank && 0x0100 <= d.s < 0x0200
    && forall x :: Exists(x) && (forall a: word :: 0x0100 <= a < 0x0200 ==> Resolve(a, c.bank) != x) ==>
      Get(d.mem, x) == Get(c.mem, x)
  }

  lemma PushWithinPageOne(c: Core, v: byte)
    requires Sound(c) && c.e
    ensures WithinPageOne(c, Push(c, v))
  {
    hide Resolve;
  }

  lemma WithinThenWithin(c: Core, d: Core, f: Core)
    requires WithinPageOne(c, d) && WithinPageOne(d, f)
    ensures WithinPageOne(c, f)
  {
  }

  lemma InterruptWithinPageOne(c: Core, flags: byte, vector: word)
    requires Sound(c) && c.e
    ensures WithinPageOne(c, Interrupted(c, flags, vector))
  {
    hide Push, Load, HandlerFlags, Resolve;
    var a := Push(c, Hi(c.pc));
    var b := Push(a, Lo(c.pc));
    PushWithinPageOne(c, Hi(c.pc));
    PushWithinPageOne(a, Lo(c.pc));
    PushWithinPageOne(b, flags);
    WithinThenWithin(c, a, b);
    WithinThenWithin(c, b, Push(b, flags));
  }

  lemma CallWithinPageOne(c: Core, kind: Kind)
    requires Sound(c) && c.e
    ensures WithinPageOne(c, Enter(c, kind))
  {
    hide Push, CodeByte, Resolve, Interrupted;
    var a := Skip(Skip(c));
    match kind
    case Near =>
      PushWithinPageOne(a, Hi(a.pc));
      PushWithinPageOne(Push(a, Hi(a.pc)), Lo(a.pc));
      WithinThenWithin(a, Push(a, Hi(a.pc)), PushWord(a, a.pc));
    case Indexed(_) =>
      PushWithinPageOne(a, Hi(a.pc));
      PushWithinPageOne(Push(a, Hi(a.pc)), Lo(a.pc));
      WithinThenWithin(a, Push(a, Hi(a.pc)), PushWord(a, a.pc));
    case Far =>
      var b := Skip(a);
      var d := Push(b, b.k);
      var f := Push(d, Hi(b.pc));
      PushWithinPageOne(b, b.k);
      PushWithinPageOne(d, Hi(b.pc));
      PushWithinPageOne(f, Lo(b.pc));
      WithinThenWithin(b, d, f);
      WithinThenWithin(b, f, PushWord(d, b.pc));
    case Break => InterruptWithinPageOne(a, WithBreak(c.p), 0xFFFE);
    case CoProc => InterruptWithinPageOne(a, c.p, 0xFFF4);
    case Hardware(vector) => InterruptWithinPageOne(c, c.p, vector);
  }

  lemma ReturnWithinPageOne(c: Core, kind: Kind)
    requires Sound(c) && c.e
    ensures WithinPageOne(c, Leave(c, kind))
  {
    hide Load, Resolve;
  }

  /** In emulation mode no sequence of stack instructions, balanced or not, takes the stack pointer out
      of page 1 or overwrites a byte outside it. */
  lemma {:induction false} EmulationStaysInPageOne(c: Core, ops: seq<Op>)
    requires Sound(c) && c.e
    ensures WithinPageOne(c, DoAll(c, ops))
    decreases |ops|
  {
    hide Push, Pull, Enter, Leave, WithinPageOne, Resolve;
    if ops == [] {
      SamePage(c, c);
    } else {
      var d := Do(c, ops[0]);
      match ops[0] {
        case PushByte(v) => PushWithinPageOne(c, v);
        case PullByte => PullWithinPageOne(c);
        case Call(kind) => CallWithinPageOne(c, kind);
        case Return(kind) => ReturnWithinPageOne(c, kind);
        case _ => SamePage(c, d);
      }
      EmulationStaysInPageOne(d, ops[1..]);
      WithinThenWithin(c, d, DoAll(c, ops));
    }
  }

  lemma SamePage(c: Core, d: Core)
    requires Sound(c) && c.e && Sound(d) && d.e && d.bank == c.bank && d.mem == c.mem
    ensures WithinPageOne(c, d)
  {
  }

  lemma PullWithinPageOne(c: Core)
    requires Sound(c) && c.e
    ensures WithinPageOne(c, Pull(c).0)
  {
  }

  // ------------------------------------------------------------------ saved flags

  /** PLP: the pulled byte becomes the flags, and then the zero and negative flags are set from it. */
  function PullFlags(c: Core): (d: Core)
    requires Sound(c)
    ensures Sound(d)
  {
    var (d, v) := Pull(c);
    var low := v % 128 - v / 2 % 2 * 2;
    d.(p := low + (if v / 128 == 1 then 128 else 0) + if v == 0 then 2 else 0)
  }

  /** PHP followed by PLP gives back the flags exactly when some flag is set and zero is not. */
  lemma SavedFlagsSurvive(c: Core)
    requires Sound(c) && Room(c, c.s, 1)
    ensures PullFlags(Push(c, c.p)).s == c.s
    ensures PullFlags(Push(c, c.p)).p == c.p <==> c.p != 0 && c.p / 2 % 2 == 0
  {
    hide InRam, Load, Store, Slot;
    SlotZero(c.s, c.e);
    PushAdds(c, c.p, c.s, 0, 1);
    PullTakes(Push(c, c.p), c.s, 1, 1);
  }

  lemma SlotZero(s: word, e: bool)
    requires InPage(s, e)
    ensures Slot(s, e, 0) == s
  {
  }
}
