/** The time a seek takes, and when it comes out as nothing or less. The head may be left at a sector
    number the medium does not have; from there the time to the target sector is negative. */
module FloppySeeks {
  import opened Bytes
  import opened Floppy
  import opened FloppyRuns
  import opened FloppyTransfer

  /** The two low bits of a control byte. */
  const READ := 1
  const WRITE := 2
  const SEEK := 3

  /** A command an aimed drive carries out. */
  predicate Accepted(d: Drive, b: byte) {
    Aimed(d) && b % 4 != 0 && (b % 4 == WRITE ==> !WriteProtected(d.media))
  }

  /** The milliseconds of a command apart from the turn to the target sector. */
  function Delay(d: Drive, command: nat): nat
    requires d.media != NoDisk
  {
    SeekTimeToTrack(d.track, d.targetTrack % 128) + if command == READ then SectorRwTime(SectorCount(d.media)) else 0
  }

  /** How many sectors the head is beyond the next passage of the target sector. */
  function Beyond(d: Drive): int { d.sector - d.targetSector - SectorCount(d.media) }

  /** The head is so far beyond that the turn back outweighs everything else. */
  predicate Overdue(d: Drive, command: nat)
    requires d.media != NoDisk
  {
    200 * Beyond(d) >= SectorCount(d.media) * (Delay(d, command) + 2) - 1
  }

  /** It at least makes up for everything else, or there is nothing to wait for. */
  predicate AtOnce(d: Drive, command: nat)
    requires d.media != NoDisk
  {
    || 200 * Beyond(d) >= SectorCount(d.media) * (Delay(d, command) + 1) - 1
    || (Delay(d, command) == 0 && (d.targetSector == d.sector || Beyond(d) == 0))
  }

  /** The sign of a delay and a turn to a sector, in terms of how far the head is beyond. */
  lemma TurnSign(sector: nat, target: nat, count: nat, delay: nat)
    requires count in {12, 16, 20}
    ensures var time, beyond := delay + SeekTimeToSector(sector, target, count), sector - target - count;
            && (time < 0 <==> 200 * beyond >= count * (delay + 2) - 1)
            && (time <= 0 <==> 200 * beyond >= count * (delay + 1) - 1
                               || (delay == 0 && (target == sector || beyond == 0)))
  {
    if count == 12 {
    } else if count == 16 {
    } else {
    }
  }

  /** The status of a drive while it carries out a command, and after it. */
  function Pending(command: nat): Status {
    if command == READ then SeekRead else if command == WRITE then SeekWrite else Seek
  }

  function Done(command: nat): Status {
    if command == READ then Reading else if command == WRITE then Writing else Ready
  }

  /** An accepted command's seek time, and whether it is waited for. */
  lemma SeekTimeOf(d: Drive, b: byte)
    requires Accepted(d, b)
    ensures var r, c := WritePort(d, 0, b), b % 4;
            && r.seekTime == Delay(d, c) + SeekTimeToSector(d.sector, d.targetSector, SectorCount(d.media))
            && r.seekOngoing && r.media == d.media && r.targetTrack == d.targetTrack
            && r.status == (if (if c == WRITE then r.seekTime != 0 else r.seekTime > 0) then Pending(c) else Done(c))
  {
    hide SectorOffset, SeekTimeToTrack, SeekTimeToSector, SectorData, NextSector, Splice, SeekTo, Delay;
    var aim := d.(doIrq := b / 32 % 2 == 1);
    SeekTimed(aim, b % 4 == WRITE);
    DelayOf(d, b % 4);
    match b % 4
    case 1 => assert WritePort(d, 0, b) == StartRead(aim);
    case 2 => assert WritePort(d, 0, b) == StartWrite(aim);
    case _ => assert WritePort(d, 0, b) == StartSeek(aim);
  }

  lemma SeekTimed(d: Drive, write: bool)
    requires Aimed(d) && (write ==> !WriteProtected(d.media))
    ensures var r := SeekTo(d, write);
            && r.status == Seek && r.seekOngoing && r.media == d.media && r.targetTrack == d.targetTrack
            && r.seekTime == SeekTimeToTrack(d.track, d.targetTrack % 128)
                             + SeekTimeToSector(d.sector, d.targetSector, SectorCount(d.media))
  {
    hide SectorOffset, SeekTimeToTrack, SeekTimeToSector;
  }

  lemma DelayOf(d: Drive, command: nat)
    requires d.media != NoDisk
    ensures Delay(d, command)
         == SeekTimeToTrack(d.track, d.targetTrack % 128)
            + if command == READ then SectorRwTime(SectorCount(d.media)) else 0
  {
    hide SeekTimeToTrack, SectorRwTime;
  }

  /** What an accepted command leaves behind: (i) when its seek time is negative, (ii) when the drive is
      not busy but still has the seek pending, and (iii) when it is busy with a negative time, which
      only a write can be, as it alone waits for a time that is not zero instead of one above zero. */
  lemma SeekOutcome(d: Drive, b: byte)
    requires Accepted(d, b)
    ensures var r, c := WritePort(d, 0, b), b % 4;
            && (r.seekTime < 0 <==> Overdue(d, c))
            && (!Busy(r.status) && r.seekOngoing <==> AtOnce(d, c) && (c == WRITE ==> !Overdue(d, c)))
            && (Busy(r.status) && r.seekTime < 0 <==> c == WRITE && Overdue(d, c))
  {
    hide WritePort, SeekTimeToSector, SeekTimeToTrack;
    SeekTimeOf(d, b);
    TurnSign(d.sector, d.targetSector, SectorCount(d.media), Delay(d, b % 4));
  }

  /** Either way the next tick, of whatever length, ends the seek. */
  lemma NextTickEnds(d: Drive, ms: nat)
    requires Inv(d) && d.seekOngoing && d.seekTime <= 0
    ensures !Busy(Tick(d, ms).status) && !Tick(d, ms).seekOngoing && Tick(d, ms).seekTime == 0
  {
  }

  /** The head is on track 0 at a sector the high-density medium does not have. */
  predicate PastTheEnd(d: Drive) {
    Aimed(d) && d.media == HD && d.track == 0 && d.sector == 31 && d.targetTrack == 0 && d.targetSector == 0
  }

  /** How it gets there: the sector port is written while a seek is pending, and the head ends up where
      that port says. No change of media is needed. */
  lemma HeadMovesPastTheEnd(d: Drive)
    requires Inv(d) && d.status == Ready && d.media == HD && d.track == 0 && d.sector == 0 && d.targetTrack == 0
    ensures PastTheEnd(Run(d, [Write(1, 1), Write(0, SEEK), Write(1, 31), Clock(13), Write(1, 0)]))
  {
    hide WritePort;
    var es := [Write(1, 1), Write(0, SEEK), Write(1, 31), Clock(13), Write(1, 0)];
    var d1 := Step(d, es[0]);
    var d2 := Step(d1, es[1]);
    var d3 := Step(d2, es[2]);
    var d4 := Step(d3, es[3]);
    var d5 := Step(d4, es[4]);
    SectorPort(d, 1);
    OneSectorOn(d1);
    SectorPort(d2, 31);
    SectorPort(d4, 0);
    RunFive(d, es, d1, d2, d3, d4, d5);
  }

  lemma SectorPort(d: Drive, b: byte)
    requires Inv(d)
    ensures WritePort(d, 1, b) == d.(targetSector := b % 32)
  {
  }

  lemma OneSectorOn(d: Drive)
    requires Inv(d) && d.status == Ready && d.media == HD
    requires d.track == 0 && d.sector == 0 && d.targetTrack == 0 && d.targetSector == 1
    ensures var r := WritePort(d, 0, SEEK);
            r.status == Seek && r.seekOngoing && r.seekTime == 13 && r.media == HD && r.targetTrack == 0
  {
    hide WritePort;
    SeekTimeOf(d, SEEK);
  }

  lemma RunFive(d: Drive, es: seq<Event>, d1: Drive, d2: Drive, d3: Drive, d4: Drive, d5: Drive)
    requires Inv(d) && |es| == 5 && d1 == Step(d, es[0])
    requires Inv(d1) && d2 == Step(d1, es[1])
    requires Inv(d2) && d3 == Step(d2, es[2])
    requires Inv(d3) && d4 == Step(d3, es[3])
    requires Inv(d4) && d5 == Step(d4, es[4])
    ensures Run(d, es) == d5
  {
    hide Step, Inv;
    assert Run(d, es) == Run(d1, es[1..]);
    assert Run(d1, es[1..]) == Run(d2, es[1..][1..]) && es[1..][1..] == es[2..];
    assert Run(d2, es[2..]) == Run(d3, es[2..][1..]) && es[2..][1..] == es[3..];
    assert Run(d3, es[3..]) == Run(d4, es[3..][1..]) && es[3..][1..] == es[4..];
    assert Run(d4, es[4..]) == Run(d5, es[4..][1..]) && es[4..][1..] == [];
  }

  lemma {:induction false} RunJoin(d: Drive, es: seq<Event>, fs: seq<Event>)
    requires Inv(d)
    ensures Run(d, es + fs) == Run(Run(d, es), fs)
    decreases |es|
  {
    hide Step, Inv;
    if es == [] {
      assert es + fs == fs;
    } else {
      assert (es + fs)[1..] == es[1..] + fs;
      RunJoin(Step(d, es[0]), es[1..], fs);
    }
  }

  /** The port accesses of a run from power-on that end past the last sector of the disk. */
  function Approach(file: seq<byte>): seq<Event> {
    [Inserted(file, false, false)] + [Write(1, 1), Write(0, SEEK), Write(1, 31), Clock(13), Write(1, 0)]
  }

  /** Both kinds of negative seeks are reached from power-on: a write left busy with a negative time,
      and a read finished with its seek still pending. */
  lemma NegativeSeeksAreReached(file: seq<byte>)
    requires 983040 < |file| <= 1310720
    ensures var r := Run(PowerOn(), Approach(file) + [Write(0, WRITE)]);
            r.status == SeekWrite && r.seekOngoing && r.seekTime < 0
    ensures var r := Run(PowerOn(), Approach(file) + [Write(0, READ)]);
            r.status == Reading && r.seekOngoing && r.seekTime < 0
  {
    hide Run, Mount, WritePort, PowerOn;
    var d0 := PowerOn();
    InsertedAtPowerOn(file);
    var d := Mount(d0, file, false, false);
    var moves := [Write(1, 1), Write(0, SEEK), Write(1, 31), Clock(13), Write(1, 0)];
    HeadMovesPastTheEnd(d);
    var e := Run(d, moves);
    RunOne(d0, Inserted(file, false, false));
    RunJoin(d0, [Inserted(file, false, false)], moves);
    RunJoin(d0, Approach(file), [Write(0, WRITE)]);
    RunJoin(d0, Approach(file), [Write(0, READ)]);
    RunOne(e, Write(0, WRITE));
    RunOne(e, Write(0, READ));
    FromPastTheEnd(e);
  }

  lemma RunOne(d: Drive, e: Event)
    requires Inv(d)
    ensures Run(d, [e]) == Step(d, e)
  {
    hide Step, Inv;
    assert [e][1..] == [];
  }

  lemma InsertedAtPowerOn(file: seq<byte>)
    requires 983040 < |file| <= 1310720
    ensures var d := Mount(PowerOn(), file, false, false);
            d.status == Ready && d.media == HD && d.track == 0 && d.sector == 0 && d.targetTrack == 0
  {
  }

  lemma FromPastTheEnd(d: Drive)
    requires PastTheEnd(d)
    ensures var r := WritePort(d, 0, WRITE); r.status == SeekWrite && r.seekOngoing && r.seekTime < 0
    ensures var r := WritePort(d, 0, READ); r.status == Reading && r.seekOngoing && r.seekTime < 0
  {
    hide WritePort;
    SeekTimeOf(d, WRITE);
    SeekTimeOf(d, READ);
  }
}
