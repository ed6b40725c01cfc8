/** Whole-sector transfers through the drive's ports: seek, wait, 512 data bytes; the drive itself
    advances to the next sector of the track. */
module FloppyTransfer {
  import opened Bytes
  import opened Floppy
  import opened FloppyRuns

  // ------------------------------------------------------------------ waiting out a command

  /** Everything a waiting program can observe: all but the head position and the clock. */
  datatype View = View(disk: seq<byte>, buffer: seq<byte>, status: Status, media: Media,
                       targetTrack: nat, targetSector: nat, sectorOffset: nat, diskOffset: nat, error: byte)

  function Visible(d: Drive): View {
    View(d.disk, d.buffer, d.status, d.media, d.targetTrack, d.targetSector, d.sectorOffset, d.diskOffset, d.error)
  }

  /** A drive as it shows when its command, if still pending, is over. */
  function Finished(d: Drive): (r: Drive)
    requires Inv(d)
    ensures Inv(r)
  {
    if Busy(d.status) then SeekDone(d) else d
  }

  lemma SettledShows(d: Drive)
    requires Inv(d)
    ensures Visible(Settled(d)) == Visible(Finished(d))
  {
    match d.status
    case SeekRead => assert SectorData(d.(seekTime := 0)) == SectorData(d);
    case _ =>
  }

  /** Waiting until a drive is no longer busy, in ticks of any sizes, shows the finished command;
      waiting on an idle drive shows nothing new. */
  lemma WaitShows(d: Drive, ds: seq<nat>)
    requires Inv(d) && !Busy(Ticks(d, ds).status)
    ensures Visible(Ticks(d, ds)) == Visible(Finished(d))
  {
    if !d.seekOngoing {
      TicksWhenIdle(d, ds);
    } else if ds != [] {
      TicksSettle(d, ds);
      SettledShows(d);
    }
  }

  // ------------------------------------------------------------------ 512 bytes through the data port

  function PutBytes(d: Drive, data: seq<byte>): (r: Drive)
    requires Inv(d)
    ensures Inv(r)
    decreases |data|
  {
    if data == [] then d else PutBytes(WritePort(d, 3, data[0]), data[1..])
  }

  function GetBytes(d: Drive, n: nat): (r: (Drive, seq<byte>))
    requires Inv(d)
    ensures Inv(r.0)
    decreases n
  {
    if n == 0 then (d, [])
    else
      var (d', b) := ReadPort(d, 3);
      var (d'', bs) := GetBytes(d', n - 1);
      (d'', [b] + bs)
  }

  /** The last of the missing bytes of a sector commits the sector, whole. */
  lemma {:induction false} PutSector(d: Drive, data: seq<byte>)
    requires Inv(d) && d.status == Writing
    requires data != [] && d.sectorOffset + |data| == SECTOR
    ensures PutBytes(d, data)
         == WriteSector(d.(buffer := Splice(d.buffer, d.sectorOffset, data), sectorOffset := 0))
    decreases |data|
  {
    var d' := WritePort(d, 3, data[0]);
    assert Splice(d.buffer, d.sectorOffset, data)
        == Splice(d.buffer[d.sectorOffset := data[0]], d.sectorOffset + 1, data[1..]);
    if |data| == 1 {
      assert PutBytes(d', data[1..]) == d';
      assert d.buffer[d.sectorOffset := data[0]] == Splice(d.buffer, d.sectorOffset, data);
    } else {
      PutSector(d', data[1..]);
    }
  }

  /** Reading the missing bytes of a sector yields the buffer in order and frees the drive. */
  lemma {:induction false} GetSector(d: Drive, n: nat)
    requires Inv(d) && d.status == Reading && n > 0 && d.sectorOffset + n == SECTOR
    ensures GetBytes(d, n) == (d.(sectorOffset := 0, status := Ready), d.buffer[d.sectorOffset..SECTOR])
    decreases n
  {
    if n == 1 {
      assert GetBytes(d, n) == (ReadPort(d, 3).0, [d.buffer[d.sectorOffset]] + []);
      assert [d.buffer[d.sectorOffset]] + [] == d.buffer[d.sectorOffset..SECTOR];
    } else {
      GetSector(ReadPort(d, 3).0, n - 1);
      assert [d.buffer[d.sectorOffset]] + d.buffer[d.sectorOffset + 1..SECTOR]
          == d.buffer[d.sectorOffset..SECTOR];
    }
  }

  // ------------------------------------------------------------------ one sector

  /** An idle drive whose target registers address a sector of the medium. */
  predicate Aimed(d: Drive) {
    && Inv(d) && d.status == Ready && d.media != NoDisk
    && d.targetTrack % 128 < TRACKS && d.targetSector < SectorCount(d.media)
  }

  /** Where sector `s` of the target track lies on the disk. */
  function Offset(d: Drive, s: nat): nat {
    SectorOffset(d.targetTrack / 128, d.targetTrack % 128, s, SectorCount(d.media))
  }

  function SectorAt(d: Drive, s: nat): (bs: seq<byte>)
    requires Aimed(d) && s < SectorCount(d.media)
    ensures |bs| == SECTOR
  {
    SectorOffsetInside(d.targetTrack / 128, d.targetTrack % 128, s, d.media);
    d.disk[Offset(d, s)..Offset(d, s) + SECTOR]
  }

  function WriteOne(d: Drive, data: seq<byte>, seek: seq<nat>, commit: seq<nat>): (r: Drive)
    requires Inv(d)
    ensures Inv(r)
  {
    Ticks(PutBytes(Ticks(WritePort(d, 0, 2), seek), data), commit)
  }

  /** On an aimed drive a seek is accepted and addresses the target sector. */
  lemma SeekAccepted(d: Drive, write: bool)
    requires Aimed(d) && (write ==> !WriteProtected(d.media))
    ensures Visible(SeekTo(d, write))
         == Visible(d).(status := Seek, sectorOffset := 0, diskOffset := Offset(d, d.targetSector))
  {
  }

  lemma WriteCommand(d: Drive, b: byte)
    requires Aimed(d) && !WriteProtected(d.media) && b % 4 == 2
    ensures Visible(Finished(WritePort(d, 0, b)))
         == Visible(d).(status := Writing, sectorOffset := 0, diskOffset := Offset(d, d.targetSector))
  {
    hide SeekTo, Offset;
    var aim := d.(doIrq := b / 32 % 2 == 1);
    assert WritePort(d, 0, b) == StartWrite(aim);
    SeekAccepted(aim, true);
    assert Offset(aim, d.targetSector) == Offset(d, d.targetSector) by { SameOffset(d, aim); }
  }

  lemma SameOffset(d: Drive, r: Drive)
    requires d.media == r.media && d.targetTrack == r.targetTrack && d.targetSector == r.targetSector
    ensures Offset(d, d.targetSector) == Offset(r, r.targetSector)
  {
  }

  /** The end of a seek to read brings the addressed sector into the buffer. */
  lemma SeekReadDone(d: Drive, aim: Drive)
    requires Inv(d) && d.status == SeekRead && Aimed(aim)
    requires Visible(d)
          == Visible(aim).(status := SeekRead, sectorOffset := 0, diskOffset := Offset(aim, aim.targetSector))
    ensures Visible(SeekDone(d))
         == Visible(d).(status := Reading, buffer := Splice(aim.buffer, 0, SectorAt(aim, aim.targetSector)),
                        targetSector := NextSector(aim))
  {
    assert SectorData(d) == SectorAt(aim, aim.targetSector);
  }

  /** A read command, with or without interrupts and error acknowledgement. */
  lemma ReadCommand(d: Drive, b: byte)
    requires Aimed(d) && b % 4 == 1
    ensures Visible(Finished(WritePort(d, 0, b)))
         == Visible(d).(status := Reading, sectorOffset := 0, diskOffset := Offset(d, d.targetSector),
                        buffer := Splice(d.buffer, 0, SectorAt(d, d.targetSector)),
                        targetSector := NextSector(d))
  {
    hide SeekTo, Offset, SeekDone, SectorAt, NextSector;
    var aim := d.(doIrq := b / 32 % 2 == 1);
    assert WritePort(d, 0, b) == StartRead(aim);
    SeekAccepted(aim, false);
    SameOffset(d, aim);
    SeekReadDone(BeginRead(SeekTo(aim, false)), d);
  }

  /** On a drive that is not aimed the command fails at once. */
  lemma ReadCommandFails(d: Drive, b: byte)
    requires Inv(d) && d.status == Ready && !Aimed(d) && b % 4 == 1
    ensures WritePort(d, 0, b).status == Error && WritePort(d, 0, b).error == SeekFault(d.media)
    ensures WritePort(d, 0, b).disk == d.disk && WritePort(d, 0, b).media == d.media
  {
    hide SectorOffset, SeekTimeToTrack, SeekTimeToSector, BeginRead, SeekDone;
  }

  /** A committed sector is on the disk once the wait for it is over. */
  lemma CommitShows(d: Drive, data: seq<byte>, commit: seq<nat>)
    requires Inv(d) && d.status == Writing && d.sectorOffset == 0 && |data| == SECTOR
    requires !Busy(Ticks(PutBytes(d, data), commit).status)
    ensures var v := Visible(Ticks(PutBytes(d, data), commit));
            && v.disk == Splice(d.disk, d.diskOffset, data) && v.status == Ready
            && v.media == d.media && v.targetTrack == d.targetTrack && v.targetSector == NextSector(d)
  {
    PutSector(d, data);
    assert Splice(d.buffer, 0, data)[..SECTOR] == data;
    WaitShows(PutBytes(d, data), commit);
  }

  lemma WriteOneSector(d: Drive, data: seq<byte>, seek: seq<nat>, commit: seq<nat>)
    requires Aimed(d) && !WriteProtected(d.media) && |data| == SECTOR
    requires !Busy(Ticks(WritePort(d, 0, 2), seek).status)
    requires !Busy(WriteOne(d, data, seek, commit).status)
    ensures var r := WriteOne(d, data, seek, commit);
            && Offset(d, d.targetSector) + SECTOR <= UD_SIZE
            && r.disk == Splice(d.disk, Offset(d, d.targetSector), data)
            && Aimed(r) && r.media == d.media && r.targetTrack == d.targetTrack
            && r.targetSector == NextSector(d)
  {
    hide WritePort, SeekDone;
    SectorOffsetInside(d.targetTrack / 128, d.targetTrack % 128, d.targetSector, d.media);
    WriteCommand(d, 2);
    WaitShows(WritePort(d, 0, 2), seek);
    CommitShows(Ticks(WritePort(d, 0, 2), seek), data, commit);
  }

  function ReadOne(d: Drive, seek: seq<nat>): (r: (Drive, seq<byte>))
    requires Inv(d)
    ensures Inv(r.0)
  {
    GetBytes(Ticks(WritePort(d, 0, 1), seek), SECTOR)
  }

  lemma ReadOneSector(d: Drive, seek: seq<nat>)
    requires Aimed(d)
    requires !Busy(Ticks(WritePort(d, 0, 1), seek).status)
    ensures var (r, bs) := ReadOne(d, seek);
            && bs == SectorAt(d, d.targetSector)
            && Aimed(r) && r.disk == d.disk && r.media == d.media && r.targetTrack == d.targetTrack
            && r.targetSector == NextSector(d)
  {
    hide WritePort, SeekDone, Ticks, SectorOffset, Finished, GetBytes;
    SectorOffsetInside(d.targetTrack / 128, d.targetTrack % 128, d.targetSector, d.media);
    var d1 := Ticks(WritePort(d, 0, 1), seek);
    ReadCommand(d, 1);
    WaitShows(WritePort(d, 0, 1), seek);
    GetSector(d1, SECTOR);
    assert d1.buffer[..SECTOR] == SectorAt(d, d.targetSector);
  }

  // ------------------------------------------------------------------ consecutive sectors

  datatype Pause = Pause(seek: seq<nat>, commit: seq<nat>)

  function WriteAll(d: Drive, datas: seq<seq<byte>>, ps: seq<Pause>): (r: Drive)
    requires Inv(d) && |ps| == |datas|
    ensures Inv(r)
    decreases |datas|
  {
    if datas == [] then d
    else WriteAll(WriteOne(d, datas[0], ps[0].seek, ps[0].commit), datas[1..], ps[1..])
  }

  /** The program polled the drive before every data phase and after every sector. */
  predicate WritesPolled(d: Drive, datas: seq<seq<byte>>, ps: seq<Pause>)
    requires Inv(d) && |ps| == |datas|
    decreases |datas|
  {
    datas != [] ==>
      && !Busy(Ticks(WritePort(d, 0, 2), ps[0].seek).status)
      && var d' := WriteOne(d, datas[0], ps[0].seek, ps[0].commit);
      && !Busy(d'.status) && WritesPolled(d', datas[1..], ps[1..])
  }

  function ReadAll(d: Drive, n: nat, ps: seq<seq<nat>>): (r: (Drive, seq<seq<byte>>))
    requires Inv(d) && |ps| == n
    ensures Inv(r.0)
    decreases n
  {
    if n == 0 then (d, [])
    else
      var (d', bs) := ReadOne(d, ps[0]);
      var (d'', rest) := ReadAll(d', n - 1, ps[1..]);
      (d'', [bs] + rest)
  }

  predicate ReadsPolled(d: Drive, n: nat, ps: seq<seq<nat>>)
    requires Inv(d) && |ps| == n
    decreases n
  {
    n != 0 ==>
      && !Busy(Ticks(WritePort(d, 0, 1), ps[0]).status)
      && ReadsPolled(ReadOne(d, ps[0]).0, n - 1, ps[1..])
  }

  /** The sector `i` places after `s` on a track of `count` sectors. */
  function After(s: nat, i: nat, count: nat): nat {
    if s + i < count then s + i else s + i - count
  }

  lemma NextIsAfter(d: Drive)
    requires Aimed(d)
    ensures NextSector(d) == After(d.targetSector, 1, SectorCount(d.media))
  {
  }

  lemma WroteOnTrack(d: Drive, r: Drive, data: seq<byte>, s: nat)
    requires Aimed(d) && Aimed(r) && r.media == d.media && r.targetTrack == d.targetTrack
    requires |data| == SECTOR && Offset(d, d.targetSector) + SECTOR <= UD_SIZE
    requires r.disk == Splice(d.disk, Offset(d, d.targetSector), data)
    requires s < SectorCount(d.media)
    ensures SectorAt(r, s) == if s == d.targetSector then data else SectorAt(d, s)
  {
    SectorOffsetInside(d.targetTrack / 128, d.targetTrack % 128, s, d.media);
    var o, p := Offset(d, s), Offset(d, d.targetSector);
    if s != d.targetSector {
      assert o + SECTOR <= p || p + SECTOR <= o;
      SpliceElsewhere(d.disk, p, data, o, o + SECTOR);
    }
  }

  /** The i-th datum is in the i-th sector after the target of `d`. */
  predicate Landed(d: Drive, r: Drive, datas: seq<seq<byte>>)
    requires Aimed(d) && Aimed(r) && r.media == d.media && |datas| <= SectorCount(d.media)
  {
    forall i :: 0 <= i < |datas| ==> SectorAt(r, After(d.targetSector, i, SectorCount(d.media))) == datas[i]
  }

  /** Every other sector of the track is as it was. */
  predicate OthersKept(d: Drive, r: Drive, n: nat)
    requires Aimed(d) && Aimed(r) && r.media == d.media && n <= SectorCount(d.media)
  {
    forall i :: n <= i < SectorCount(d.media) ==>
      var s := After(d.targetSector, i, SectorCount(d.media));
      SectorAt(r, s) == SectorAt(d, s)
  }

  predicate SameTrack(d: Drive, r: Drive) {
    Aimed(d) && Aimed(r) && r.media == d.media && r.targetTrack == d.targetTrack
  }

  /** One write followed by writes to the sectors after it. */
  lemma LandedBefore(d: Drive, d': Drive, r: Drive, datas: seq<seq<byte>>)
    requires SameTrack(d, d') && SameTrack(d', r) && 0 < |datas| <= SectorCount(d.media)
    requires |datas[0]| == SECTOR && Offset(d, d.targetSector) + SECTOR <= UD_SIZE
    requires d'.disk == Splice(d.disk, Offset(d, d.targetSector), datas[0])
    requires d'.targetSector == NextSector(d)
    requires Landed(d', r, datas[1..]) && OthersKept(d', r, |datas| - 1)
    ensures Landed(d, r, datas) && OthersKept(d, r, |datas|)
  {
    var count, t := SectorCount(d.media), d.targetSector;
    NextIsAfter(d);
    forall i | 0 <= i < count
      ensures var s := After(t, i, count);
              SectorAt(r, s) == if i < |datas| then datas[i] else SectorAt(d, s)
    {
      var s := After(t, i, count);
      WroteOnTrack(d, d', datas[0], s);
      assert s == After(d'.targetSector, if i == 0 then count - 1 else i - 1, count);
    }
  }

  /** n consecutive writes put the i-th datum in the i-th sector after the first and touch no other
      sector of the track. */
  lemma {:induction false} WriteAllSectors(d: Drive, datas: seq<seq<byte>>, ps: seq<Pause>)
    requires Aimed(d) && !WriteProtected(d.media) && |ps| == |datas| <= SectorCount(d.media)
    requires forall x <- datas :: |x| == SECTOR
    requires WritesPolled(d, datas, ps)
    ensures SameTrack(d, WriteAll(d, datas, ps))
    ensures Landed(d, WriteAll(d, datas, ps), datas) && OthersKept(d, WriteAll(d, datas, ps), |datas|)
    decreases |datas|
  {
    if datas != [] {
      assert datas[0] in datas && forall x <- datas[1..] :: x in datas;
      var d' := WriteOne(d, datas[0], ps[0].seek, ps[0].commit);
      WriteOneSector(d, datas[0], ps[0].seek, ps[0].commit);
      WriteAllSectors(d', datas[1..], ps[1..]);
      LandedBefore(d, d', WriteAll(d, datas, ps), datas);
    }
  }

  lemma LandedLater(d: Drive, d': Drive, rest: seq<seq<byte>>)
    requires SameTrack(d, d') && d'.disk == d.disk && d'.targetSector == NextSector(d)
    requires |rest| < SectorCount(d.media) && Landed(d', d', rest)
    ensures Landed(d, d, [SectorAt(d, d.targetSector)] + rest)
  {
    var count := SectorCount(d.media);
    NextIsAfter(d);
    forall i | 0 <= i <= |rest|
      ensures SectorAt(d, After(d.targetSector, i, count)) == ([SectorAt(d, d.targetSector)] + rest)[i]
    {
      if i != 0 {
        var s := After(d.targetSector, i, count);
        assert s == After(d'.targetSector, i - 1, count);
        assert SectorAt(d', s) == SectorAt(d, s);
      }
    }
  }

  /** n consecutive reads return the n sectors after the first, in order. */
  lemma {:induction false} ReadAllSectors(d: Drive, n: nat, ps: seq<seq<nat>>)
    requires Aimed(d) && |ps| == n <= SectorCount(d.media) && ReadsPolled(d, n, ps)
    ensures |ReadAll(d, n, ps).1| == n && Landed(d, d, ReadAll(d, n, ps).1)
    decreases n
  {
    hide WritePort, Ticks, ReadOne, SectorOffset, NextSector, SectorAt, Inv;
    if n != 0 {
      var (d', b) := ReadOne(d, ps[0]);
      ReadOneSector(d, ps[0]);
      ReadAllSectors(d', n - 1, ps[1..]);
      LandedLater(d, d', ReadAll(d', n - 1, ps[1..]).1);
    }
  }

  /** The drive with a sector number written to its sector port. */
  function Rewound(d: Drive, s: byte): (r: Drive)
    requires Inv(d) && s < 32
    ensures r == d.(targetSector := s) && Inv(r)
  {
    WritePort(d, 1, s)
  }

  /** What landed on a track is what a rewound drive reads back. */
  lemma ReadBack(d: Drive, w: Drive, datas: seq<seq<byte>>, qs: seq<seq<nat>>)
    requires SameTrack(d, w) && |datas| == |qs| <= SectorCount(d.media) && Landed(d, w, datas)
    requires ReadsPolled(Rewound(w, d.targetSector), |datas|, qs)
    ensures ReadAll(Rewound(w, d.targetSector), |datas|, qs).1 == datas
  {
    hide ReadsPolled, ReadAll, SectorOffset;
    var d' := Rewound(w, d.targetSector);
    ReadAllSectors(d', |datas|, qs);
    var ys := ReadAll(d', |datas|, qs).1;
    forall i | 0 <= i < |datas|
      ensures datas[i] == ys[i]
    {
      var s := After(d.targetSector, i, SectorCount(d.media));
      assert SectorAt(d', s) == SectorAt(w, s);
    }
  }

  /** Up to a whole track written sector after sector, relying only on the automatic advance, is
      read back the same way, for every timing of the ticks the program waits through. */
  lemma TrackRoundTrip(d: Drive, datas: seq<seq<byte>>, ps: seq<Pause>, w: Drive, qs: seq<seq<nat>>)
    requires Aimed(d) && !WriteProtected(d.media)
    requires |qs| == |ps| == |datas| <= SectorCount(d.media)
    requires forall x <- datas :: |x| == SECTOR
    requires WritesPolled(d, datas, ps) && w == WriteAll(d, datas, ps)
    requires ReadsPolled(Rewound(w, d.targetSector), |datas|, qs)
    ensures ReadAll(Rewound(w, d.targetSector), |datas|, qs).1 == datas
  {
    hide *;
    WriteAllSectors(d, datas, ps);
    ReadBack(d, w, datas, qs);
  }
}
