/** Every channel gets its share: whatever the other channels do, each cycle serves all four, so a
    started job has moved a byte more after every cycle, and no job outlives 65536 of them. */
module DmaProgress {
  import opened Bytes
  import opened Memory
  import opened Dma
  import opened DmaSchedule

  predicate Running(c: Channel) { Enabled(c) && Copying(c) }

  /** A channel after its share of a cycle: its registers do not depend on memory. */
  function Served(c: Channel): Channel { if Running(c) then Advance(c) else c }

  function ServedTimes(c: Channel, n: nat): Channel
    decreases n
  {
    if n == 0 then c else ServedTimes(Served(c), n - 1)
  }

  function Ticking(n: nat): (evs: seq<Event>)
    ensures |evs| == n && forall ev <- evs :: ev == Tick
  {
    seq(n, i => Tick)
  }

  lemma TickingIsOneMore(n: nat)
    requires n > 0
    ensures Ticking(n)[0] == Tick && Ticking(n)[1..] == Ticking(n - 1)
  {
  }

  lemma StepServes(e: Engine, stackBank: byte, j: nat, k: nat)
    requires Ok(e) && j < CHANNELS && k < CHANNELS
    ensures CopyStep(e, stackBank, j).ch[k] == if k == j then Served(e.ch[k]) else e.ch[k]
  {
    hide Advance, Put, Get;
  }

  lemma CycleServes(e: Engine, stackBank: byte, k: nat)
    requires Ok(e) && k < CHANNELS
    ensures Cycle(e, stackBank).ch[k] == Served(e.ch[k])
  {
    hide CopyStep, Served;
    var e1 := CopyStep(e, stackBank, 0);
    var e2 := CopyStep(e1, stackBank, 1);
    var e3 := CopyStep(e2, stackBank, 2);
    StepServes(e, stackBank, 0, k);
    StepServes(e1, stackBank, 1, k);
    StepServes(e2, stackBank, 2, k);
    StepServes(e3, stackBank, 3, k);
  }

  lemma {:induction false} TicksServe(e: Engine, stackBank: byte, controls: seq<byte>, k: nat, n: nat)
    requires Ok(e) && |controls| == CHANNELS && k < CHANNELS
    ensures Run(e, stackBank, controls, Ticking(n)).ch[k] == ServedTimes(e.ch[k], n)
    decreases n
  {
    hide Cycle, Served;
    if n != 0 {
      TickingIsOneMore(n);
      CycleServes(e, stackBank, k);
      TicksServe(Cycle(e, stackBank), stackBank, controls, k, n - 1);
    }
  }

  // ------------------------------------------------------------------ one job

  function Min(a: nat, b: nat): nat { if a <= b then a else b }

  lemma {:induction false} JobServed(j: Channel, i: nat, n: nat)
    requires Started(j) && i <= Length(j)
    ensures ServedTimes(AfterBytes(j, i), n) == AfterBytes(j, Min(i + n, Length(j)))
    decreases n
  {
    hide AfterBytes, Advance;
    if n != 0 {
      if i < Length(j) {
        AdvanceIsOneMore(j, i);
        JobServed(j, i + 1, n - 1);
      } else {
        Finished(j);
        JobServed(j, i, n - 1);
      }
    }
  }

  /** A started job is n bytes further after n cycles, or finished, on whichever channel it runs and
      whatever the other channels are doing. */
  lemma ChannelProgress(e: Engine, stackBank: byte, controls: seq<byte>, k: nat, n: nat)
    requires Ok(e) && |controls| == CHANNELS && k < CHANNELS && Started(e.ch[k])
    ensures Run(e, stackBank, controls, Ticking(n)).ch[k] == AfterBytes(e.ch[k], Min(n, Length(e.ch[k])))
    ensures Copying(Run(e, stackBank, controls, Ticking(n)).ch[k]) <==> n < Length(e.ch[k])
  {
    hide AfterBytes, Run, ServedTimes;
    NoBytes(e.ch[k]);
    Finished(e.ch[k]);
    TicksServe(e, stackBank, controls, k, n);
    JobServed(e.ch[k], 0, n);
  }

  // ------------------------------------------------------------------ the end of all jobs

  /** The cycles until a running channel stops: what its counter counts down. */
  function Left(c: Channel): nat {
    if !Running(c) then 0 else if c.count == 0 then 0x1_0000 else c.count
  }

  lemma ServedCountsDown(c: Channel)
    ensures Left(Served(c)) == if Left(c) == 0 then 0 else Left(c) - 1
    ensures Running(c) ==> (Copying(Served(c)) <==> Running(Served(c)))
    ensures !Running(c) ==> Served(c) == c
  {
  }

  lemma {:induction false} TimesCountDown(c: Channel, n: nat)
    ensures Left(ServedTimes(c, n)) == if Left(c) <= n then 0 else Left(c) - n
    ensures Running(c) ==> (Copying(ServedTimes(c, n)) <==> n < Left(c))
    ensures !Running(c) ==> ServedTimes(c, n) == c
    decreases n
  {
    hide Served, Running, Left, Copying;
    assert Running(c) <==> Left(c) != 0 by { LeftIsRunning(c); }
    assert Running(c) ==> Copying(c) by { LeftIsRunning(c); }
    if n != 0 {
      ServedCountsDown(c);
      LeftIsRunning(Served(c));
      TimesCountDown(Served(c), n - 1);
    }
  }

  lemma LeftIsRunning(c: Channel)
    ensures Running(c) <==> Left(c) != 0
    ensures Running(c) ==> Copying(c)
    ensures Left(c) <= 0x1_0000
  {
  }

  /** From any state, a channel that runs stops after exactly as many cycles as its counter says, at
      most 65536. What is left copying after that is what a control write has switched off in the
      middle of its job: its copying bit stays set, and it never moves on. */
  lemma AllEnd(e: Engine, stackBank: byte, controls: seq<byte>, k: nat, n: nat)
    requires Ok(e) && |controls| == CHANNELS && k < CHANNELS
    ensures var c, r := e.ch[k], Run(e, stackBank, controls, Ticking(n)).ch[k];
            && (Running(r) <==> n < Left(c)) && Left(c) <= 0x1_0000
            && (n >= 0x1_0000 ==> (Copying(r) <==> Copying(c) && !Enabled(c)))
  {
    hide Run, ServedTimes, Left;
    TicksServe(e, stackBank, controls, k, n);
    LeftIsRunning(e.ch[k]);
    LeftIsRunning(ServedTimes(e.ch[k], n));
    TimesCountDown(e.ch[k], n);
  }

  /** Nothing is switched off in the middle of its job. */
  predicate NoneStuck(e: Engine) { forall c <- e.ch :: Copying(c) ==> Enabled(c) }

  lemma ServedNotStuck(c: Channel)
    requires Copying(c) ==> Enabled(c)
    ensures Copying(Served(c)) ==> Enabled(Served(c))
  {
  }

  lemma HappenNotStuck(e: Engine, stackBank: byte, controls: seq<byte>, ev: Event)
    requires Ok(e) && |controls| == CHANNELS && (ev.Start? ==> ev.k < CHANNELS && controls[ev.k] >= 128)
    requires NoneStuck(e)
    ensures NoneStuck(Happen(e, stackBank, controls, ev))
  {
    hide Cycle, WriteReg, Served, Copying, Enabled;
    var r := Happen(e, stackBank, controls, ev);
    forall k | 0 <= k < CHANNELS
      ensures Copying(r.ch[k]) ==> Enabled(r.ch[k])
    {
      assert e.ch[k] in e.ch;
      if ev == Tick {
        CycleServes(e, stackBank, k);
        ServedNotStuck(e.ch[k]);
      } else {
        StartStarts(e.ch[ev.k], controls[ev.k]);
      }
    }
  }

  lemma {:induction false} RunNotStuck(e: Engine, stackBank: byte, controls: seq<byte>, evs: seq<Event>)
    requires Ok(e) && |controls| == CHANNELS && NoneStuck(e)
    requires forall ev <- evs :: ev.Start? ==> ev.k < CHANNELS && controls[ev.k] >= 128
    ensures NoneStuck(Run(e, stackBank, controls, evs))
    decreases |evs|
  {
    hide Happen, NoneStuck;
    if evs != [] {
      HappenNotStuck(e, stackBank, controls, evs[0]);
      RunNotStuck(Happen(e, stackBank, controls, evs[0]), stackBank, controls, evs[1..]);
    }
  }

  lemma {:induction false} RunInTwo(e: Engine, stackBank: byte, controls: seq<byte>, evs: seq<Event>,
                                    more: seq<Event>)
    requires Ok(e) && |controls| == CHANNELS
    requires forall ev <- evs + more :: ev.Start? ==> ev.k < CHANNELS
    requires forall ev <- evs :: ev.Start? ==> ev.k < CHANNELS
    requires forall ev <- more :: ev.Start? ==> ev.k < CHANNELS
    ensures Run(e, stackBank, controls, evs + more)
         == Run(Run(e, stackBank, controls, evs), stackBank, controls, more)
    decreases |evs|
  {
    hide Happen;
    if evs == [] {
      assert evs + more == more;
    } else {
      assert (evs + more)[1..] == evs[1..] + more;
      RunInTwo(Happen(e, stackBank, controls, evs[0]), stackBank, controls, evs[1..], more);
    }
  }

  /** Any schedule of cycles and starts, followed by 65536 cycles, has every channel idle. */
  lemma AllIdleAfter(e: Engine, stackBank: byte, controls: seq<byte>, evs: seq<Event>, n: nat)
    requires Ok(e) && |controls| == CHANNELS && NoneStuck(e) && n >= 0x1_0000
    requires forall ev <- evs :: ev.Start? ==> ev.k < CHANNELS && controls[ev.k] >= 128
    ensures forall c <- Run(e, stackBank, controls, evs + Ticking(n)).ch :: !Copying(c)
  {
    hide Run, Copying, Enabled, Ticking;
    RunInTwo(e, stackBank, controls, evs, Ticking(n));
    RunNotStuck(e, stackBank, controls, evs);
    var e' := Run(e, stackBank, controls, evs);
    var r := Run(e', stackBank, controls, Ticking(n));
    forall k | 0 <= k < CHANNELS
      ensures !Copying(r.ch[k])
    {
      assert e'.ch[k] in e'.ch;
      AllEnd(e', stackBank, controls, k, n);
    }
  }

  // ------------------------------------------------------------------ lockstep, to the end

  lemma {:induction false} TicksStartNothing(started: seq<bool>, evs: seq<Event>, n: nat)
    requires |started| == CHANNELS && StartsOnce(started, evs)
    ensures StartsOnce(started, evs + Ticking(n))
    ensures StartedBy(started, evs + Ticking(n)) == StartedBy(started, evs)
    decreases |evs|, n
  {
    if evs == [] {
      assert evs + Ticking(n) == Ticking(n);
      if n != 0 {
        TickingIsOneMore(n);
        TicksStartNothing(started, [], n - 1);
        assert [] + Ticking(n - 1) == Ticking(n - 1);
      }
    } else {
      assert (evs + Ticking(n))[1..] == evs[1..] + Ticking(n);
      TicksStartNothing(match evs[0] case Tick => started case Start(k) => started[k := true], evs[1..], n);
    }
  }

  lemma {:induction false} StartsAreStarted(started: seq<bool>, evs: seq<Event>, ev: Event)
    requires |started| == CHANNELS && StartsOnce(started, evs) && ev in evs && ev.Start?
    ensures ev.k < CHANNELS && StartedBy(started, evs)[ev.k]
    decreases |evs|
  {
    if evs[0] == ev {
      StaysStarted(started[ev.k := true], evs[1..], ev.k);
    } else {
      StartsAreStarted(match evs[0] case Tick => started case Start(k) => started[k := true], evs[1..], ev);
    }
  }

  /** Jobs that keep apart, started in any cycles of any schedule: when 65536 more cycles have passed,
      all channels are idle and memory is as if the jobs had run one after another, in any order. */
  lemma LockstepEndsAsInTurn(m0: Mem, stackBank: byte, idle: seq<Channel>, js: seq<Channel>, controls: seq<byte>,
                             evs: seq<Event>, n: nat, order: seq<nat>)
    requires Sized(m0) && StartsOnce(NONE, evs) && forall ev <- evs :: ev.Start? ==> ev.k < CHANNELS
    requires Setup(idle, js, controls, StartedBy(NONE, evs))
    requires ApartAmong(js, stackBank, StartedBy(NONE, evs))
    requires Order(order) && n >= 0x1_0000
    requires forall k :: 0 <= k < CHANNELS ==> (k in order <==> StartedBy(NONE, evs)[k])
    ensures var r := Run(Engine(m0, idle), stackBank, controls, evs + Ticking(n));
            r.mem == InTurn(m0, stackBank, js, order) && forall c <- r.ch :: !Copying(c)
  {
    hide Run, StartsOnce, StartedBy, InTurn, ApartAmong, Ticking, Copying, WriteReg;
    TicksStartNothing(NONE, evs, n);
    forall ev <- evs | ev.Start?
      ensures controls[ev.k] >= 128
    {
      StartsAreStarted(NONE, evs, ev);
    }
    AllIdleAfter(Engine(m0, idle), stackBank, controls, evs, n);
    LockstepEqualsInTurn(m0, stackBank, idle, js, controls, evs + Ticking(n), order);
  }

  // ------------------------------------------------------------------ jobs under way

  function Standby(c: Channel): (r: Channel)
    ensures !Copying(r)
  {
    if Copying(c) then SetCopying(c, false) else c
  }

  /** Jobs already started, on any of the channels, that keep apart: after 65536 cycles memory is as if
      they had run one after another, in any order. */
  lemma StartedEndAsInTurn(e: Engine, stackBank: byte, controls: seq<byte>, on: seq<bool>, n: nat,
                           order: seq<nat>)
    requires Ok(e) && |controls| == |on| == CHANNELS && n >= 0x1_0000
    requires forall k :: 0 <= k < CHANNELS ==> if on[k] then Started(e.ch[k]) else !Copying(e.ch[k])
    requires ApartAmong(e.ch, stackBank, on)
    requires Order(order) && forall k :: 0 <= k < CHANNELS ==> (k in order <==> on[k])
    ensures Run(e, stackBank, controls, Ticking(n)).mem == InTurn(e.mem, stackBank, e.ch, order)
    ensures forall c <- Run(e, stackBank, controls, Ticking(n)).ch :: !Copying(c)
  {
    hide Run, StartsOnce, StartedBy, InTurn, Apart, ApartAmong, Merged, AfterBytes, Ticking, SetCopying, Jobs,
         Participants, Started;
    var js := Participants(e.ch, on);
    var idle := seq(CHANNELS, k requires 0 <= k < CHANNELS => Standby(e.ch[k]));
    var p0 := [0, 0, 0, 0];
    StartedParticipants(e, stackBank, on);
    ParticipantsApart(e.ch, stackBank, on);
    StartedCoherent(e, stackBank, on, idle);
    var evs := Ticking(n);
    assert StartsOnce(on, evs) && StartedBy(on, evs) == on by { OnlyTicks(on, n); }
    var p := RunCoherent(e.mem, stackBank, idle, js, controls, NONE, e, on, p0, evs);
    var r := Run(e, stackBank, controls, evs);
    forall k | 0 <= k < CHANNELS
      ensures p[k] == Done(js, order)[k] && !Copying(r.ch[k])
    {
      Finished(js[k]);
      AllEnd(e, stackBank, controls, k, n);
      EnabledWhenStarted(e.ch[k]);
      assert ChannelAt(idle[k], js[k], r.ch[k], on[k], p[k]);
    }
    assert p == Done(js, order);
    assert Done(js, []) == p0;
    assert [] + order == order;
    NothingMerged(e.mem, stackBank, js);
    InTurnMerges(e.mem, stackBank, js, [], e.mem, order);
    MergedUnique(e.mem, stackBank, js, p, r.mem, InTurn(e.mem, stackBank, js, order));
    SameJobs(e.ch, on, order);
    SameInTurn(e.mem, stackBank, e.ch, js, order);
  }

  lemma OnlyTicks(started: seq<bool>, n: nat)
    requires |started| == CHANNELS
    ensures StartsOnce(started, Ticking(n)) && StartedBy(started, Ticking(n)) == started
  {
    TicksStartNothing(started, [], n);
    assert [] + Ticking(n) == Ticking(n);
  }

  lemma EnabledWhenStarted(c: Channel)
    ensures Started(c) ==> Enabled(c)
  {
  }

  lemma SameJobs(ch: seq<Channel>, on: seq<bool>, order: seq<nat>)
    requires |ch| == |on| == CHANNELS && Order(order)
    requires forall k :: 0 <= k < CHANNELS ==> (k in order <==> on[k])
    ensures forall i :: 0 <= i < |order| ==> Participants(ch, on)[order[i]] == ch[order[i]]
  {
    forall i | 0 <= i < |order|
      ensures Participants(ch, on)[order[i]] == ch[order[i]]
    {
      assert order[i] in order;
    }
  }

  lemma StartedParticipants(e: Engine, stackBank: byte, on: seq<bool>)
    requires Ok(e) && |on| == CHANNELS
    requires forall k :: 0 <= k < CHANNELS ==> if on[k] then Started(e.ch[k]) else !Copying(e.ch[k])
    ensures Jobs(Participants(e.ch, on))
  {
  }

  lemma StartedCoherent(e: Engine, stackBank: byte, on: seq<bool>, idle: seq<Channel>)
    requires Ok(e) && |on| == |idle| == CHANNELS && Jobs(Participants(e.ch, on))
    requires forall k :: 0 <= k < CHANNELS && !on[k] ==> e.ch[k] == idle[k]
    ensures Coherent(e.mem, stackBank, idle, Participants(e.ch, on), e, on, [0, 0, 0, 0])
  {
    hide AfterBytes, Merged;
    var js := Participants(e.ch, on);
    NothingMerged(e.mem, stackBank, js);
    forall k | 0 <= k < CHANNELS
      ensures ChannelAt(idle[k], js[k], e.ch[k], on[k], 0)
    {
      NoBytes(js[k]);
    }
  }

  // ------------------------------------------------------------------ the order of service

  /** In one cycle a channel fetches what a channel before it has just stored: with channels j < k
      running alone and the source of k the destination of j, the byte j fetches goes through both. */
  lemma FetchesWhatWasStored(e: Engine, stackBank: byte, j: nat, k: nat)
    requires Ok(e) && j < k < CHANNELS
    requires forall i :: 0 <= i < CHANNELS ==> (Running(e.ch[i]) <==> i == j || i == k)
    requires DstCell(e.ch[j], stackBank) == SrcCell(e.ch[k])
    requires Writable(SrcCell(e.ch[k])) && Writable(DstCell(e.ch[k], stackBank))
    ensures Get(Cycle(e, stackBank).mem, DstCell(e.ch[k], stackBank)) == Get(e.mem, SrcCell(e.ch[j]))
  {
    hide Resolve, ResolveTransparent, Advance, Enabled, Copying;
  }
}
