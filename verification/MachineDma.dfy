/** The machine's DMA between memories is the four-channel engine: what that engine's jobs do, the
    machine's own cycles do, and nothing else of the machine changes. */
module MachineDma {
  import opened Bytes
  import opened Memory
  import opened Dma
  import opened DmaSchedule
  import opened DmaProgress
  import opened Computer = Machine
  import Floppy

  /** The part of the machine the engine works on. */
  function Part(s: Sys): (e: Engine)
    requires Computer.Ok(s)
    ensures DmaSchedule.Ok(e)
  {
    Engine(s.mem, s.ch)
  }

  function WithPart(s: Sys, e: Engine): (r: Sys)
    requires Computer.Ok(s) && DmaSchedule.Ok(e)
    ensures Computer.Ok(r)
  {
    s.(mem := e.mem, ch := e.ch)
  }

  /** The byte the channel is about to move, if any, does not come from a port or go to one. */
  predicate PortFree(c: Channel, stackBank: byte) {
    Running(c) ==> !SrcCell(c).Port? && !DstCell(c, stackBank).Port?
  }

  lemma ShareIsEngineStep(s: Sys, k: nat)
    requires Computer.Ok(s) && k < 4 && PortFree(s.ch[k], s.stackBank)
    ensures CopyByte(s, k) == WithPart(s, CopyStep(Part(s), s.stackBank, k))
  {
    hide Advance, SrcCell, DstCell, Put, Get, CopyByte;
    if Running(s.ch[k]) {
      CopyByteInMemory(s, k);
    } else {
      NoShare(s, k);
      assert s.ch[k := s.ch[k]] == s.ch;
    }
  }

  lemma NoShare(s: Sys, k: nat)
    requires Computer.Ok(s) && k < 4 && !Running(s.ch[k])
    ensures CopyByte(s, k) == s
  {
  }

  /** A cycle of the machine in which no channel touches a port is a cycle of the engine. */
  lemma CycleIsEngineCycle(s: Sys)
    requires Computer.Ok(s) && forall c <- s.ch :: PortFree(c, s.stackBank)
    ensures DmaCycle(s) == s.(mem := Cycle(Engine(s.mem, s.ch), s.stackBank).mem,
                              ch := Cycle(Engine(s.mem, s.ch), s.stackBank).ch)
  {
    hide CopyByte, CopyStep, PortFree, Served;
    var b, e := s.stackBank, Part(s);
    var e1 := CopyStep(e, b, 0);
    var e2 := CopyStep(e1, b, 1);
    var e3 := CopyStep(e2, b, 2);
    forall k | 0 <= k < 4
      ensures k >= 1 ==> e1.ch[k] == s.ch[k]
      ensures k >= 2 ==> e2.ch[k] == s.ch[k]
      ensures k >= 3 ==> e3.ch[k] == s.ch[k]
      ensures PortFree(s.ch[k], b)
    {
      assert s.ch[k] in s.ch;
      StepServes(e, b, 0, k);
      StepServes(e1, b, 1, k);
      StepServes(e2, b, 2, k);
    }
    ShareIsEngineStep(s, 0);
    ShareIsEngineStep(WithPart(s, e1), 1);
    ShareIsEngineStep(WithPart(s, e2), 2);
    ShareIsEngineStep(WithPart(s, e3), 3);
  }

  // ------------------------------------------------------------------ many cycles

  function DmaCycles(s: Sys, n: nat): (r: Sys)
    requires Computer.Ok(s)
    ensures Computer.Ok(r)
    decreases n
  {
    if n == 0 then s else DmaCycles(DmaCycle(s), n - 1)
  }

  /** The channel keeps to memory for as long as it runs. */
  ghost predicate InMemory(c: Channel, stackBank: byte) {
    forall n: nat :: PortFree(ServedTimes(c, n), stackBank)
  }

  lemma StaysInMemory(c: Channel, stackBank: byte)
    requires InMemory(c, stackBank)
    ensures PortFree(c, stackBank) && InMemory(Served(c), stackBank)
  {
    hide Served, PortFree;
    assert ServedTimes(c, 0) == c;
    forall n: nat
      ensures PortFree(ServedTimes(Served(c), n), stackBank)
    {
      assert ServedTimes(c, n + 1) == ServedTimes(Served(c), n);
    }
  }

  /** A channel that is not running keeps to memory, and so does a job started between memory cells. */
  lemma KeepsToMemory(c: Channel, stackBank: byte)
    requires !Running(c) || (Started(c) && MemoryOnly(c, stackBank))
    ensures InMemory(c, stackBank)
  {
    hide ServedTimes, AfterBytes, MemoryOnly, SrcCell, DstCell, Started, Length, Source, Target;
    forall n: nat
      ensures PortFree(ServedTimes(c, n), stackBank)
    {
      TimesCountDown(c, n);
      if Running(c) {
        NoBytes(c);
        JobServed(c, 0, n);
        if n < Length(c) {
          CellsOfByte(c, stackBank, n);
          ByteInMemory(c, stackBank, n);
        } else {
          Finished(c);
        }
      }
    }
  }

  lemma ByteInMemory(c: Channel, stackBank: byte, i: nat)
    requires MemoryOnly(c, stackBank) && i < Length(c)
    ensures i < 0x1_0000 && !Source(c, i).Port? && !Target(c, stackBank, i).Port?
  {
  }

  const NO_CONTROLS: seq<byte> := [0, 0, 0, 0]

  /** Any number of cycles of the machine are that many cycles of the engine, and the drive, the stack
      bank and the other devices are as before. */
  lemma {:induction false} CyclesAreEngineCycles(s: Sys, n: nat)
    requires Computer.Ok(s) && forall k :: 0 <= k < 4 ==> InMemory(s.ch[k], s.stackBank)
    ensures DmaCycles(s, n) == WithPart(s, Run(Part(s), s.stackBank, NO_CONTROLS, Ticking(n)))
    decreases n
  {
    hide DmaCycle, Cycle, InMemory, Served, Computer.Ok;
    if n != 0 {
      var e := Cycle(Part(s), s.stackBank);
      forall k | 0 <= k < 4
        ensures PortFree(s.ch[k], s.stackBank) && InMemory(e.ch[k], s.stackBank)
      {
        StaysInMemory(s.ch[k], s.stackBank);
        CycleServes(Part(s), s.stackBank, k);
      }
      CycleIsEngineCycle(s);
      TickingIsOneMore(n);
      CyclesAreEngineCycles(DmaCycle(s), n - 1);
    }
  }

  /** A started job has moved n bytes after n cycles, or all of its bytes. */
  lemma JobProgress(s: Sys, k: nat, n: nat)
    requires Computer.Ok(s) && k < 4 && Started(s.ch[k])
    requires forall i :: 0 <= i < 4 ==> InMemory(s.ch[i], s.stackBank)
    ensures DmaCycles(s, n).ch[k] == AfterBytes(s.ch[k], Min(n, Length(s.ch[k])))
  {
    hide InMemory, DmaCycles, AfterBytes;
    CyclesAreEngineCycles(s, n);
    ChannelProgress(Part(s), s.stackBank, NO_CONTROLS, k, n);
  }

  predicate Alone(ch: seq<Channel>, k: nat) {
    |ch| == 4 && k < 4 && forall i :: 0 <= i < 4 && i != k ==> !Running(ch[i])
  }

  lemma {:induction false} EngineAlone(e: Engine, stackBank: byte, k: nat, n: nat)
    requires DmaSchedule.Ok(e) && Alone(e.ch, k)
    ensures var r := Run(e, stackBank, NO_CONTROLS, Ticking(n));
            && Cycles(e.mem, stackBank, e.ch[k], n) == (r.mem, r.ch[k])
            && Alone(r.ch, k) && forall i :: 0 <= i < 4 && i != k ==> r.ch[i] == e.ch[i]
    decreases n
  {
    hide Cycle, CycleCopy, Running;
    if n != 0 {
      TickingIsOneMore(n);
      CycleAlone(e, stackBank, k);
      EngineAlone(Cycle(e, stackBank), stackBank, k, n - 1);
      CyclesFromFront(e.mem, stackBank, e.ch[k], n);
    }
  }

  lemma {:induction false} CyclesFromFront(m: Mem, stackBank: byte, c: Channel, n: nat)
    requires Sized(m) && n > 0
    ensures Cycles(m, stackBank, c, n)
         == Cycles(CycleCopy(m, stackBank, c).0, stackBank, CycleCopy(m, stackBank, c).1, n - 1)
    decreases n
  {
    hide CycleCopy;
    if n > 1 {
      CyclesFromFront(m, stackBank, c, n - 1);
    }
  }

  lemma Rewritten(ch: seq<Channel>)
    ensures forall i :: 0 <= i < |ch| ==> ch[i := ch[i]] == ch
  {
  }

  lemma CycleAlone(e: Engine, stackBank: byte, k: nat)
    requires DmaSchedule.Ok(e) && Alone(e.ch, k)
    ensures Cycle(e, stackBank).mem == CycleCopy(e.mem, stackBank, e.ch[k]).0
    ensures Cycle(e, stackBank).ch == e.ch[k := CycleCopy(e.mem, stackBank, e.ch[k]).1]
  {
    hide Put, Get, Advance, SrcCell, DstCell;
    var c := CycleCopy(e.mem, stackBank, e.ch[k]).1;
    Rewritten(e.ch);
    Rewritten(e.ch[k := c]);
  }

  /** A job that runs alone has moved the first n of its bytes, in order, after n cycles. */
  lemma JobAlone(s: Sys, k: nat, n: nat)
    requires Computer.Ok(s) && k < 4 && Started(s.ch[k]) && MemoryOnly(s.ch[k], s.stackBank) && Alone(s.ch, k)
    ensures DmaCycles(s, n).ch[k] == AfterBytes(s.ch[k], Min(n, Length(s.ch[k])))
    ensures DmaCycles(s, n).mem == Copied(s.mem, s.stackBank, s.ch[k], Min(n, Length(s.ch[k])))
  {
    hide InMemory, DmaCycles, AfterBytes, Copied, MemoryOnly, Running;
    forall i | 0 <= i < 4
      ensures InMemory(s.ch[i], s.stackBank)
    {
      KeepsToMemory(s.ch[i], s.stackBank);
    }
    CyclesAreEngineCycles(s, n);
    EngineAlone(Part(s), s.stackBank, k, n);
    JobRuns(s.mem, s.stackBank, s.ch[k], n);
  }

  /** Jobs that keep apart, started on any of the channels: 65536 cycles of the machine leave its
      memory as if they had run one after another, in any order. */
  lemma JobsInTurn(s: Sys, on: seq<bool>, n: nat, order: seq<nat>)
    requires Computer.Ok(s) && |on| == 4 && n >= 0x1_0000
    requires forall k :: 0 <= k < 4 ==> if on[k] then Started(s.ch[k]) else !Copying(s.ch[k])
    requires ApartAmong(s.ch, s.stackBank, on)
    requires Order(order) && forall k :: 0 <= k < 4 ==> (k in order <==> on[k])
    ensures DmaCycles(s, n).mem == InTurn(s.mem, s.stackBank, s.ch, order)
    ensures forall c <- DmaCycles(s, n).ch :: !Copying(c)
  {
    hide InMemory, DmaCycles, InTurn, MemoryOnly, Copying, Started, Run, Ticking, Stores, Loads;
    forall k | 0 <= k < 4
      ensures InMemory(s.ch[k], s.stackBank)
    {
      StoppedIsNotRunning(s.ch[k]);
      KeepsToMemory(s.ch[k], s.stackBank);
    }
    CyclesAreEngineCycles(s, n);
    StartedEndAsInTurn(Part(s), s.stackBank, NO_CONTROLS, on, n, order);
  }

  lemma StoppedIsNotRunning(c: Channel)
    ensures !Copying(c) ==> !Running(c)
  {
  }

  /** The machine's DMA run for a number of cycles, as the terminal's command to finish all jobs does. */
  method FastForward(m: Machine, cycles: nat)
    requires m.Valid()
    modifies m.Devices(), m.Memories()
    ensures m.Valid() && m.State() == DmaCycles(old(m.State()), cycles)
    ensures var s := old(m.State());
            (forall i :: 0 <= i < 4 ==> InMemory(s.ch[i], s.stackBank)) ==>
              forall k :: 0 <= k < 4 && Started(s.ch[k]) ==>
                m.Chan(k).State() == AfterBytes(s.ch[k], Min(cycles, Length(s.ch[k])))
  {
    hide DmaCycle, InMemory, AfterBytes, Started, Floppy.Inv;
    ghost var s := m.State();
    for i := 0 to cycles
      invariant m.Valid() && DmaCycles(m.State(), cycles - i) == DmaCycles(s, cycles)
    {
      m.RunDma();
    }
    if forall i :: 0 <= i < 4 ==> InMemory(s.ch[i], s.stackBank) {
      forall k | 0 <= k < 4 && Started(s.ch[k])
        ensures m.Chan(k).State() == AfterBytes(s.ch[k], Min(cycles, Length(s.ch[k])))
      {
        JobProgress(s, k, cycles);
      }
    }
  }
}
