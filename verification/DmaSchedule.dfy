/** Four DMA channels in lockstep: as long as no job stores where another job loads or stores, the
    memory they leave is the one the jobs leave when run one after another, in any order. */
module DmaSchedule {
  import opened Bytes
  import opened Memory
  import opened Dma

  const CHANNELS := 4

  datatype Engine = Engine(mem: Mem, ch: seq<Channel>)

  predicate Ok(e: Engine) { Sized(e.mem) && |e.ch| == CHANNELS }

  function CopyStep(e: Engine, stackBank: byte, k: nat): (r: Engine)
    requires Ok(e) && k < CHANNELS
    ensures Ok(r)
  {
    var (m, c) := CycleCopy(e.mem, stackBank, e.ch[k]);
    Engine(m, e.ch[k := c])
  }

  /** One processor cycle: each channel in turn moves at most one byte. */
  function Cycle(e: Engine, stackBank: byte): (r: Engine)
    requires Ok(e)
    ensures Ok(r)
  {
    CopyStep(CopyStep(CopyStep(CopyStep(e, stackBank, 0), stackBank, 1), stackBank, 2), stackBank, 3)
  }

  /** What can happen: a cycle, or the write to a channel's control register that starts its job. */
  datatype Event = Tick | Start(k: nat)

  function Happen(e: Engine, stackBank: byte, controls: seq<byte>, ev: Event): (r: Engine)
    requires Ok(e) && |controls| == CHANNELS && (ev.Start? ==> ev.k < CHANNELS)
    ensures Ok(r)
  {
    match ev
    case Tick => Cycle(e, stackBank)
    case Start(k) => e.(ch := e.ch[k := WriteReg(e.ch[k], 0, controls[k])])
  }

  function Run(e: Engine, stackBank: byte, controls: seq<byte>, evs: seq<Event>): (r: Engine)
    requires Ok(e) && |controls| == CHANNELS && (forall ev <- evs :: ev.Start? ==> ev.k < CHANNELS)
    ensures Ok(r)
    decreases |evs|
  {
    if evs == [] then e
    else Run(Happen(e, stackBank, controls, evs[0]), stackBank, controls, evs[1..])
  }

  // ------------------------------------------------------------------ jobs that keep apart

  /** The jobs the four channels do once started. */
  predicate Jobs(js: seq<Channel>) { |js| == CHANNELS && forall j <- js :: Started(j) }

  ghost predicate Stores(j: Channel, stackBank: byte, x: Cell) {
    Writable(x) && exists i :: 0 <= i < Length(j) && Target(j, stackBank, i) == x
  }

  ghost predicate Loads(j: Channel, x: Cell) {
    exists i :: 0 <= i < Length(j) && Source(j, i) == x
  }

  /** No job uses I/O addresses, and no job's destination meets another job's source or
      destination, cell by cell. */
  ghost predicate Apart(js: seq<Channel>, stackBank: byte)
    requires Jobs(js)
  {
    && (forall k :: 0 <= k < CHANNELS ==> MemoryOnly(js[k], stackBank))
    && forall k, l, x :: 0 <= k < CHANNELS && 0 <= l < CHANNELS && k != l && Stores(js[k], stackBank, x) ==>
                        !Loads(js[l], x) && !Stores(js[l], stackBank, x)
  }

  /** A cell that no job but the k-th stores in. */
  ghost predicate Private(js: seq<Channel>, stackBank: byte, k: nat, x: Cell)
    requires Jobs(js) && k < CHANNELS
  {
    Exists(x) && forall l :: 0 <= l < CHANNELS && l != k ==> !Stores(js[l], stackBank, x)
  }

  predicate Progress(js: seq<Channel>, p: seq<nat>)
    requires Jobs(js)
  {
    |p| == CHANNELS && forall k :: 0 <= k < CHANNELS ==> p[k] <= Length(js[k])
  }

  /** Memory `m` looks, wherever only job k may store, as if only the first p[k] bytes of job k had
      been moved since `m0`. */
  ghost predicate Merged(m0: Mem, stackBank: byte, js: seq<Channel>, p: seq<nat>, m: Mem)
    requires Sized(m0) && Sized(m) && Jobs(js) && Progress(js, p)
  {
    forall k, x :: 0 <= k < CHANNELS && Private(js, stackBank, k, x) ==>
                     Get(m, x) == Get(Copied(m0, stackBank, js[k], p[k]), x)
  }

  /** One more byte of one job, on the memory all jobs share. */
  lemma MergeByte(m0: Mem, stackBank: byte, js: seq<Channel>, p: seq<nat>, m: Mem, k: nat)
    requires Sized(m0) && Sized(m) && Jobs(js) && Apart(js, stackBank) && Progress(js, p)
    requires k < CHANNELS && p[k] < Length(js[k])
    requires Merged(m0, stackBank, js, p, m)
    ensures Merged(m0, stackBank, js, p[k := p[k] + 1],
                   Put(m, Target(js[k], stackBank, p[k]), Get(m, Source(js[k], p[k]))))
  {
    hide Get, Put, Source, Target, Sized, Started, Exists;
    var i := p[k];
    var s, t := Source(js[k], i), Target(js[k], stackBank, i);
    assert Loads(js[k], s);
    assert Private(js, stackBank, k, s);
    assert Writable(t) ==> Stores(js[k], stackBank, t);
    assert Writable(t) ==> Private(js, stackBank, k, t);
    var p', n := p[k := i + 1], Put(m, t, Get(m, s));
    var own := Copied(m0, stackBank, js[k], i);
    assert Get(m, s) == Get(own, s);
    forall l, x | 0 <= l < CHANNELS && Private(js, stackBank, l, x)
      ensures Get(n, x) == Get(Copied(m0, stackBank, js[l], p'[l]), x)
    {
      if l == k {
        SamePut(own, m, t, Get(m, s), x);
      } else {
        assert x == t ==> !Writable(t);
        PutElsewhere(m, t, Get(m, s), x);
      }
    }
  }

  lemma SamePut(m: Mem, n: Mem, t: Cell, v: byte, x: Cell)
    requires Sized(m) && Sized(n) && Exists(t) && Exists(x) && Get(m, x) == Get(n, x)
    ensures Get(Put(m, t, v), x) == Get(Put(n, t, v), x)
  {
  }

  lemma PutElsewhere(m: Mem, t: Cell, v: byte, x: Cell)
    requires Sized(m) && Exists(t) && Exists(x) && (x == t ==> !Writable(t))
    ensures Get(Put(m, t, v), x) == Get(m, x)
  {
  }

  /** The progress determines the memory. */
  lemma MergedUnique(m0: Mem, stackBank: byte, js: seq<Channel>, p: seq<nat>, m: Mem, n: Mem)
    requires Sized(m0) && Sized(m) && Sized(n) && Jobs(js) && Apart(js, stackBank) && Progress(js, p)
    requires Merged(m0, stackBank, js, p, m) && Merged(m0, stackBank, js, p, n)
    ensures m == n
  {
    forall x | Exists(x)
      ensures Get(m, x) == Get(n, x)
    {
      var k :| 0 <= k < CHANNELS && Private(js, stackBank, k, x) by { SomeOwner(js, stackBank, x); }
    }
    SameCells(m, n);
  }

  lemma SomeOwner(js: seq<Channel>, stackBank: byte, x: Cell)
    requires Jobs(js) && Apart(js, stackBank) && Exists(x)
    ensures exists k :: 0 <= k < CHANNELS && Private(js, stackBank, k, x)
  {
    if k :| 0 <= k < CHANNELS && Stores(js[k], stackBank, x) {
      assert Private(js, stackBank, k, x);
    } else {
      assert Private(js, stackBank, 0, x);
    }
  }

  // ------------------------------------------------------------------ one after another

  predicate Order(ks: seq<nat>) {
    && (forall i :: 0 <= i < |ks| ==> ks[i] < CHANNELS)
    && (forall i, j :: 0 <= i < j < |ks| ==> ks[i] != ks[j])
  }

  /** The memory after whole jobs run one after another. */
  function InTurn(m: Mem, stackBank: byte, js: seq<Channel>, ks: seq<nat>): (r: Mem)
    requires Sized(m) && |js| == CHANNELS && forall i :: 0 <= i < |ks| ==> ks[i] < CHANNELS
    ensures Sized(r)
    decreases |ks|
  {
    if ks == [] then m
    else InTurn(Cycles(m, stackBank, js[ks[0]], Length(js[ks[0]])).0, stackBank, js, ks[1..])
  }

  /** Job k run for a while by itself, on a memory to which the others have contributed. */
  lemma {:induction false} MergeRun(m0: Mem, stackBank: byte, js: seq<Channel>, p: seq<nat>, m: Mem, k: nat, n: nat)
    requires Sized(m0) && Sized(m) && Jobs(js) && Apart(js, stackBank) && Progress(js, p)
    requires k < CHANNELS && p[k] == 0 && n <= Length(js[k])
    requires Merged(m0, stackBank, js, p, m)
    ensures Merged(m0, stackBank, js, p[k := n], Copied(m, stackBank, js[k], n))
    decreases n
  {
    hide Merged, Apart, Source, Target, Put, Get;
    if n == 0 {
      assert p[k := 0] == p;
    } else {
      MergeRun(m0, stackBank, js, p, m, k, n - 1);
      MergeByte(m0, stackBank, js, p[k := n - 1], Copied(m, stackBank, js[k], n - 1), k);
      assert p[k := n - 1][k := n] == p[k := n];
    }
  }

  /** The progress when exactly the listed jobs are done. */
  function Done(js: seq<Channel>, ks: seq<nat>): (p: seq<nat>)
    requires Jobs(js)
    ensures Progress(js, p)
  {
    seq(CHANNELS, k requires 0 <= k < CHANNELS => if k in ks then Length(js[k]) else 0)
  }

  lemma ApartAvoidsIo(js: seq<Channel>, stackBank: byte, k: nat)
    requires Jobs(js) && Apart(js, stackBank) && k < CHANNELS
    ensures MemoryOnly(js[k], stackBank)
  {
  }

  lemma DoneOneMore(js: seq<Channel>, before: seq<nat>, ks: seq<nat>)
    requires Jobs(js) && Order(before + ks) && ks != []
    ensures ks[0] < CHANNELS && Done(js, before)[ks[0]] == 0
    ensures Done(js, before)[ks[0] := Length(js[ks[0]])] == Done(js, before + [ks[0]])
  {
    assert ks[0] == (before + ks)[|before|];
    forall i | 0 <= i < |before|
      ensures before[i] != ks[0]
    {
      assert (before + ks)[i] == before[i];
    }
  }

  lemma {:induction false} InTurnMerges(m0: Mem, stackBank: byte, js: seq<Channel>, before: seq<nat>, m: Mem,
                                        ks: seq<nat>)
    requires Sized(m0) && Sized(m) && Jobs(js) && Apart(js, stackBank)
    requires Order(before + ks) && Merged(m0, stackBank, js, Done(js, before), m)
    requires forall i :: 0 <= i < |ks| ==> ks[i] < CHANNELS
    ensures Merged(m0, stackBank, js, Done(js, before + ks), InTurn(m, stackBank, js, ks))
    decreases |ks|
  {
    hide Merged, Apart, MemoryOnly, AfterBytes, Copied, Cycles, Done;
    if ks == [] {
      assert before + ks == before;
    } else {
      var k := ks[0];
      DoneOneMore(js, before, ks);
      assert MemoryOnly(js[k], stackBank) by { ApartAvoidsIo(js, stackBank, k); }
      JobRuns(m, stackBank, js[k], Length(js[k]));
      MergeRun(m0, stackBank, js, Done(js, before), m, k, Length(js[k]));
      assert before + [k] + ks[1..] == before + ks;
      InTurnMerges(m0, stackBank, js, before + [k], Copied(m, stackBank, js[k], Length(js[k])), ks[1..]);
    }
  }

  // ------------------------------------------------------------------ in lockstep

  /** The state of channel k: not started yet, or so many bytes into its job. */
  predicate ChannelAt(idle: Channel, j: Channel, c: Channel, started: bool, p: nat)
    requires Started(j) && p <= Length(j)
  {
    if started then c == AfterBytes(j, p) else c == idle && p == 0
  }

  ghost predicate Coherent(m0: Mem, stackBank: byte, idle: seq<Channel>, js: seq<Channel>,
                           e: Engine, started: seq<bool>, p: seq<nat>)
    requires Sized(m0) && Jobs(js) && |idle| == CHANNELS && Ok(e)
  {
    && |started| == CHANNELS && Progress(js, p)
    && (forall k :: 0 <= k < CHANNELS ==> ChannelAt(idle[k], js[k], e.ch[k], started[k], p[k]))
    && Merged(m0, stackBank, js, p, e.mem)
  }

  /** Idle channels, and the jobs that starting some of them, each with its control byte, makes of those. */
  predicate Setup(idle: seq<Channel>, js: seq<Channel>, controls: seq<byte>, on: seq<bool>) {
    && |idle| == |js| == |controls| == |on| == CHANNELS
    && forall k :: 0 <= k < CHANNELS ==>
        !Copying(idle[k]) && (on[k] ==> controls[k] >= 128 && js[k] == WriteReg(idle[k], 0, controls[k]))
  }

  lemma StepCoherent(m0: Mem, stackBank: byte, idle: seq<Channel>, js: seq<Channel>, controls: seq<byte>,
                     on: seq<bool>, e: Engine, started: seq<bool>, p: seq<nat>, k: nat) returns (p': seq<nat>)
    requires Sized(m0) && Setup(idle, js, controls, on) && Jobs(js) && Apart(js, stackBank) && Ok(e) && k < CHANNELS
    requires Coherent(m0, stackBank, idle, js, e, started, p)
    ensures Coherent(m0, stackBank, idle, js, CopyStep(e, stackBank, k), started, p')
  {
    hide Merged, Apart, AfterBytes, Advance, Source, Target, SrcCell, DstCell, WriteReg;
    p' := p;
    if started[k] && p[k] < Length(js[k]) {
      AdvanceIsOneMore(js[k], p[k]);
      CellsOfByte(js[k], stackBank, p[k]);
      MergeByte(m0, stackBank, js, p, e.mem, k);
      p' := p[k := p[k] + 1];
    } else {
      if started[k] {
        Finished(js[k]);
      }
      assert e.ch[k := e.ch[k]] == e.ch;
    }
  }

  lemma Finished(j: Channel)
    requires Started(j)
    ensures !Copying(AfterBytes(j, Length(j)))
    ensures forall k :: 0 <= k < Length(j) ==> Copying(AfterBytes(j, k))
  {
  }

  lemma CycleCoherent(m0: Mem, stackBank: byte, idle: seq<Channel>, js: seq<Channel>, controls: seq<byte>,
                      on: seq<bool>, e: Engine, started: seq<bool>, p: seq<nat>) returns (p': seq<nat>)
    requires Sized(m0) && Setup(idle, js, controls, on) && Jobs(js) && Apart(js, stackBank) && Ok(e)
    requires Coherent(m0, stackBank, idle, js, e, started, p)
    ensures Coherent(m0, stackBank, idle, js, Cycle(e, stackBank), started, p')
  {
    hide CopyStep, Coherent, Apart, Setup;
    p' := StepCoherent(m0, stackBank, idle, js, controls, on, e, started, p, 0);
    var e1 := CopyStep(e, stackBank, 0);
    p' := StepCoherent(m0, stackBank, idle, js, controls, on, e1, started, p', 1);
    var e2 := CopyStep(e1, stackBank, 1);
    p' := StepCoherent(m0, stackBank, idle, js, controls, on, e2, started, p', 2);
    var e3 := CopyStep(e2, stackBank, 2);
    p' := StepCoherent(m0, stackBank, idle, js, controls, on, e3, started, p', 3);
  }

  lemma StartCoherent(m0: Mem, stackBank: byte, idle: seq<Channel>, js: seq<Channel>, controls: seq<byte>,
                      on: seq<bool>, e: Engine, started: seq<bool>, p: seq<nat>, k: nat)
    requires Sized(m0) && Setup(idle, js, controls, on) && Jobs(js) && Ok(e) && k < CHANNELS && on[k]
    requires Coherent(m0, stackBank, idle, js, e, started, p) && !started[k]
    ensures Coherent(m0, stackBank, idle, js, Happen(e, stackBank, controls, Start(k)), started[k := true], p)
  {
    hide Merged, WriteReg, AfterBytes;
    NoBytes(js[k]);
  }

  /** Every channel is started at most once, counting the ones already started. */
  predicate StartsOnce(started: seq<bool>, evs: seq<Event>)
    requires |started| == CHANNELS
    decreases |evs|
  {
    evs != [] ==>
      match evs[0]
      case Tick => StartsOnce(started, evs[1..])
      case Start(k) => k < CHANNELS && !started[k] && StartsOnce(started[k := true], evs[1..])
  }

  function StartedBy(started: seq<bool>, evs: seq<Event>): (r: seq<bool>)
    requires |started| == CHANNELS && StartsOnce(started, evs)
    ensures |r| == CHANNELS
    decreases |evs|
  {
    if evs == [] then started
    else
      match evs[0]
      case Tick => StartedBy(started, evs[1..])
      case Start(k) => StartedBy(started[k := true], evs[1..])
  }

  lemma {:induction false} StartsInRange(started: seq<bool>, evs: seq<Event>)
    requires |started| == CHANNELS && StartsOnce(started, evs)
    ensures forall ev <- evs :: ev.Start? ==> ev.k < CHANNELS
    decreases |evs|
  {
    if evs != [] {
      StartsInRange(match evs[0] case Tick => started case Start(k) => started[k := true], evs[1..]);
    }
  }

  lemma {:induction false} StaysStarted(started: seq<bool>, evs: seq<Event>, k: nat)
    requires |started| == CHANNELS && StartsOnce(started, evs) && k < CHANNELS && started[k]
    ensures StartedBy(started, evs)[k]
    decreases |evs|
  {
    if evs != [] {
      StaysStarted(match evs[0] case Tick => started case Start(l) => started[l := true], evs[1..], k);
    }
  }

  lemma {:induction false} RunCoherent(m0: Mem, stackBank: byte, idle: seq<Channel>, js: seq<Channel>,
                                       controls: seq<byte>, on: seq<bool>, e: Engine, started: seq<bool>,
                                       p: seq<nat>, evs: seq<Event>)
    returns (p': seq<nat>)
    requires Sized(m0) && Setup(idle, js, controls, on) && Jobs(js) && Apart(js, stackBank) && Ok(e)
    requires Coherent(m0, stackBank, idle, js, e, started, p)
    requires StartsOnce(started, evs) && forall ev <- evs :: ev.Start? ==> ev.k < CHANNELS
    requires forall k :: 0 <= k < CHANNELS && StartedBy(started, evs)[k] && !started[k] ==> on[k]
    ensures Coherent(m0, stackBank, idle, js, Run(e, stackBank, controls, evs), StartedBy(started, evs), p')
    decreases |evs|
  {
    hide Merged, Cycle, Apart, WriteReg;
    p' := p;
    if evs != [] {
      var e' := Happen(e, stackBank, controls, evs[0]);
      match evs[0] {
        case Tick =>
          p' := CycleCoherent(m0, stackBank, idle, js, controls, on, e, started, p);
          p' := RunCoherent(m0, stackBank, idle, js, controls, on, e', started, p', evs[1..]);
        case Start(k) =>
          StaysStarted(started[k := true], evs[1..], k);
          StartCoherent(m0, stackBank, idle, js, controls, on, e, started, p, k);
          p' := RunCoherent(m0, stackBank, idle, js, controls, on, e', started[k := true], p, evs[1..]);
      }
    }
  }

  const NONE: seq<bool> := [false, false, false, false]

  /** The started jobs use no I/O addresses, and no destination of one of them meets a source or a
      destination of another. Of channels that are not started nothing is asked. */
  ghost predicate ApartAmong(js: seq<Channel>, stackBank: byte, on: seq<bool>)
    requires |js| == |on| == CHANNELS
  {
    && (forall k :: 0 <= k < CHANNELS && on[k] ==> MemoryOnly(js[k], stackBank))
    && forall k, l, x :: 0 <= k < CHANNELS && 0 <= l < CHANNELS && k != l && on[k] && on[l] ==>
        Stores(js[k], stackBank, x) ==> !Loads(js[l], x) && !Stores(js[l], stackBank, x)
  }

  /** A job that would disturb nothing: one byte, from ROM to ROM. */
  const BYSTANDER := Channel(0x8C, 0x80, 0, 1, 1, 0x8000, 0, 0, 0)

  /** The started jobs, with bystanders for the others. */
  function Participants(js: seq<Channel>, on: seq<bool>): (r: seq<Channel>)
    requires |js| == |on| == CHANNELS
    ensures |r| == CHANNELS
  {
    seq(CHANNELS, k requires 0 <= k < CHANNELS => if on[k] then js[k] else BYSTANDER)
  }

  lemma ParticipantsStart(idle: seq<Channel>, js: seq<Channel>, controls: seq<byte>, on: seq<bool>)
    requires Setup(idle, js, controls, on)
    ensures Jobs(Participants(js, on)) && Setup(idle, Participants(js, on), controls, on)
  {
    forall k | 0 <= k < CHANNELS
      ensures Started(Participants(js, on)[k])
    {
      if on[k] {
        StartStarts(idle[k], controls[k]);
      }
    }
  }

  lemma BystanderStandsBy(stackBank: byte)
    ensures MemoryOnly(BYSTANDER, stackBank)
    ensures forall x :: !Stores(BYSTANDER, stackBank, x)
    ensures forall x :: Loads(BYSTANDER, x) ==> !Writable(x)
  {
  }

  lemma ParticipantsApart(js: seq<Channel>, stackBank: byte, on: seq<bool>)
    requires |js| == |on| == CHANNELS && Jobs(Participants(js, on)) && ApartAmong(js, stackBank, on)
    ensures Apart(Participants(js, on), stackBank)
  {
    hide MemoryOnly, Loads, Stores;
    BystanderStandsBy(stackBank);
    var ps := Participants(js, on);
    forall k, l, x | 0 <= k < CHANNELS && 0 <= l < CHANNELS && k != l && Stores(ps[k], stackBank, x)
      ensures !Loads(ps[l], x) && !Stores(ps[l], stackBank, x)
    {
      StoredIsWritable(ps[k], stackBank, x);
    }
  }

  lemma StoredIsWritable(j: Channel, stackBank: byte, x: Cell)
    requires Stores(j, stackBank, x)
    ensures Writable(x)
  {
  }

  lemma {:induction false} SameInTurn(m: Mem, stackBank: byte, js: seq<Channel>, ps: seq<Channel>, ks: seq<nat>)
    requires Sized(m) && |js| == |ps| == CHANNELS && forall i :: 0 <= i < |ks| ==> ks[i] < CHANNELS
    requires forall i :: 0 <= i < |ks| ==> ps[ks[i]] == js[ks[i]]
    ensures InTurn(m, stackBank, ps, ks) == InTurn(m, stackBank, js, ks)
    decreases |ks|
  {
    hide Cycles;
    if ks != [] {
      SameInTurn(Cycles(m, stackBank, js[ks[0]], Length(js[ks[0]])).0, stackBank, js, ps, ks[1..]);
    }
  }

  /** Jobs that keep apart do not interfere: whichever channels are started, whatever the lengths of
      their jobs and the cycles they are started in, once all are finished memory is as if they had run
      one after another, in any order. */
  lemma LockstepEqualsInTurn(m0: Mem, stackBank: byte, idle: seq<Channel>, js: seq<Channel>, controls: seq<byte>,
                             evs: seq<Event>, order: seq<nat>)
    requires Sized(m0) && StartsOnce(NONE, evs) && forall ev <- evs :: ev.Start? ==> ev.k < CHANNELS
    requires Setup(idle, js, controls, StartedBy(NONE, evs))
    requires ApartAmong(js, stackBank, StartedBy(NONE, evs))
    requires forall c <- Run(Engine(m0, idle), stackBank, controls, evs).ch :: !Copying(c)
    requires Order(order)
    requires forall k :: 0 <= k < CHANNELS ==> (k in order <==> StartedBy(NONE, evs)[k])
    ensures Run(Engine(m0, idle), stackBank, controls, evs).mem == InTurn(m0, stackBank, js, order)
  {
    hide Apart, ApartAmong, Participants, Merged, WriteReg, Run, StartsOnce, StartedBy, InTurn, AfterBytes;
    var on := StartedBy(NONE, evs);
    var ps := Participants(js, on);
    ParticipantsStart(idle, js, controls, on);
    ParticipantsApart(js, stackBank, on);
    AmongParticipants(m0, stackBank, idle, ps, controls, evs, order);
    forall i | 0 <= i < |order|
      ensures ps[order[i]] == js[order[i]]
    {
      assert order[i] in order;
      ParticipantIsJob(js, on, order[i]);
    }
    SameInTurn(m0, stackBank, js, ps, order);
  }

  lemma ParticipantIsJob(js: seq<Channel>, on: seq<bool>, k: nat)
    requires |js| == |on| == CHANNELS && k < CHANNELS && on[k]
    ensures Participants(js, on)[k] == js[k]
  {
  }

  /** The same with jobs that keep apart on all four channels. */
  lemma AmongParticipants(m0: Mem, stackBank: byte, idle: seq<Channel>, js: seq<Channel>, controls: seq<byte>,
                          evs: seq<Event>, order: seq<nat>)
    requires Sized(m0) && StartsOnce(NONE, evs) && forall ev <- evs :: ev.Start? ==> ev.k < CHANNELS
    requires Setup(idle, js, controls, StartedBy(NONE, evs)) && Jobs(js) && Apart(js, stackBank)
    requires forall c <- Run(Engine(m0, idle), stackBank, controls, evs).ch :: !Copying(c)
    requires Order(order)
    requires forall k :: 0 <= k < CHANNELS ==> (k in order <==> StartedBy(NONE, evs)[k])
    ensures Run(Engine(m0, idle), stackBank, controls, evs).mem == InTurn(m0, stackBank, js, order)
  {
    hide Apart, Merged, WriteReg, Run, StartsOnce, StartedBy, InTurn, AfterBytes;
    var e, st := Engine(m0, idle), StartedBy(NONE, evs);
    NothingMerged(m0, stackBank, js);
    var p := RunCoherent(m0, stackBank, idle, js, controls, st, e, NONE, [0, 0, 0, 0], evs);
    var r := Run(e, stackBank, controls, evs);
    forall k | 0 <= k < CHANNELS
      ensures p[k] == Done(js, order)[k]
    {
      Finished(js[k]);
      assert ChannelAt(idle[k], js[k], r.ch[k], st[k], p[k]);
      assert r.ch[k] in r.ch;
    }
    assert p == Done(js, order);
    assert Done(js, []) == [0, 0, 0, 0];
    assert [] + order == order;
    InTurnMerges(m0, stackBank, js, [], m0, order);
    MergedUnique(m0, stackBank, js, p, r.mem, InTurn(m0, stackBank, js, order));
  }

  lemma NothingMerged(m0: Mem, stackBank: byte, js: seq<Channel>)
    requires Sized(m0) && Jobs(js)
    ensures Merged(m0, stackBank, js, [0, 0, 0, 0], m0)
  {
  }
}
