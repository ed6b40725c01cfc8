/** What a program sees of the drive through its four ports: which commands are refused and with what
    code, what registers read back, and how far the head thinks it has to go. */
module FloppyPorts {
  import opened Bytes
  import opened Floppy
  import opened FloppyRuns
  import opened FloppySeeks
  import opened FloppyTransfer

  /** A control byte whose command is looked at: after an error, only one that acknowledges it. */
  predicate Heard(d: Drive, b: byte) { d.status != Error || b / 64 % 2 == 1 }

  /** The command cannot be carried out. */
  predicate Refused(d: Drive, b: byte) {
    || Busy(d.status)
    || d.media == NoDisk
    || (b % 4 == WRITE && WriteProtected(d.media))
    || d.targetTrack % 128 >= 80
    || d.targetSector >= SectorCount(d.media)
  }

  /** A command is refused exactly when the drive is busy or empty, the disk is protected against the
      write, or there is no such sector; the data port then reads the code for the first of these. */
  lemma CommandOutcome(d: Drive, b: byte)
    requires Inv(d) && b % 4 != 0 && Heard(d, b)
    ensures var r := WritePort(d, 0, b);
            && (r.status == Error <==> Refused(d, b)) && (r.doIrq <==> b / 32 % 2 == 1)
            && (Refused(d, b) ==>
                  && ReadPort(r, 3) == (r, r.error)
                  && r.error == if Busy(d.status) then 1 else if d.media == NoDisk then 2
                                else if b % 4 == WRITE && WriteProtected(d.media) then 5 else 3)
  {
    hide WritePort, Prepared, SeekTo, StartRead, StartWrite, StartSeek;
    var c := Prepared(d, b);
    CommandStarts(d, b);
    SeekRefused(c, b % 4 == WRITE);
    FailureOfSeek(c);
  }

  /** The drive about to start a command it has heard. */
  function Prepared(d: Drive, b: byte): (c: Drive)
    requires Inv(d) && Heard(d, b)
    ensures Inv(c) && c.status != Error && (c.doIrq <==> b / 32 % 2 == 1)
    ensures Busy(c.status) <==> Busy(d.status)
    ensures c.media == d.media && c.targetTrack == d.targetTrack && c.targetSector == d.targetSector
  {
    var a := d.(doIrq := b / 32 % 2 == 1);
    if b / 64 % 2 == 1 then ClearError(a) else a
  }

  lemma CommandStarts(d: Drive, b: byte)
    requires Inv(d) && Heard(d, b) && b % 4 != 0
    ensures WritePort(d, 0, b)
         == if b % 4 == READ then StartRead(Prepared(d, b)) else if b % 4 == WRITE then StartWrite(Prepared(d, b))
            else StartSeek(Prepared(d, b))
  {
    hide StartRead, StartWrite, StartSeek;
  }

  /** A command fails exactly when its seek does. */
  predicate SameFailure(d: Drive, r: Drive) {
    r.doIrq == d.doIrq && (r.status == Error <==> d.status == Error) && (d.status == Error ==> r == d)
  }

  lemma FailureOfSeek(d: Drive)
    requires Inv(d)
    ensures SameFailure(SeekTo(d, false), StartRead(d)) && SameFailure(SeekTo(d, false), StartSeek(d))
    ensures SameFailure(SeekTo(d, true), StartWrite(d))
  {
    hide SeekTo, SeekDone;
    var r, w := SeekTo(d, false), SeekTo(d, true);
    if r.status == Seek {
      DoneIsNoError(r);
      DoneIsNoError(BeginRead(r));
    }
    if w.status == Seek {
      DoneIsNoError(w.(status := SeekWrite));
    }
  }

  lemma SeekRefused(d: Drive, write: bool)
    requires Inv(d)
    ensures var r := SeekTo(d, write);
            && r.doIrq == d.doIrq
            && (r.status == Error <==> Busy(d.status) || d.media == NoDisk || (write && WriteProtected(d.media))
                                       || d.targetTrack % 128 >= 80 || d.targetSector >= SectorCount(d.media))
            && (r.status == Error ==>
                  r.error == if Busy(d.status) then 1 else if d.media == NoDisk then 2
                             else if write && WriteProtected(d.media) then 5 else 3)
  {
    hide SectorOffset, SeekTimeToSector, SeekTimeToTrack;
  }

  lemma DoneIsNoError(d: Drive)
    requires Inv(d) && d.status != Error
    ensures SeekDone(d).status != Error && SeekDone(d).doIrq == d.doIrq
  {
    hide Splice;
  }

  /** An unacknowledged error keeps the drive from doing anything. */
  lemma ErrorsAreSticky(d: Drive, b: byte)
    requires Inv(d) && !Heard(d, b)
    ensures var r := WritePort(d, 0, b); r == d.(doIrq := r.doIrq) && ReadPort(r, 3) == (r, d.error)
  {
  }

  /** The address ports read back what is written, within five bits for the sector, and keep out of
      each other's way; outside a transfer the data port takes nothing and gives 0xFF. */
  lemma AddressReadsBack(d: Drive, b: byte)
    requires Inv(d)
    ensures var r := WritePort(d, 1, b); ReadPort(r, 1).1 == b % 32 && ReadPort(r, 2).1 == ReadPort(d, 2).1
    ensures var r := WritePort(d, 2, b); ReadPort(r, 2).1 == b && ReadPort(r, 1).1 == ReadPort(d, 1).1
    ensures ReadPort(d, 1).0 == ReadPort(d, 2).0 == d
    ensures d.status != Writing ==> WritePort(d, 3, b) == d
    ensures d.status != Reading && d.status != Error ==> ReadPort(d, 3) == (d, 0xFF)
  {
  }

  /** Bits 2 to 4 of the status port are the number of sectors of a track, bit 1 is the protection, and
      bit 5 the interrupt enable. */
  lemma StatusTellsMedia(d: Drive, stale: bv8)
    requires stale & 0x3E == 0
    ensures (StatusPort(d, stale) & 0x1C) as nat == SectorCount(d.media)
    ensures StatusPort(d, stale) & 0x02 != 0 <==> WriteProtected(d.media)
    ensures StatusPort(d, stale) & 0x20 != 0 <==> d.doIrq
  {
  }

  /** An ejected drive refuses every command with the same code, and keeps nothing of the disk. */
  lemma EjectedRefuses(d: Drive, b: byte)
    requires Inv(d) && b % 4 != 0 && b / 64 % 2 == 1
    ensures var r := WritePort(Unmount(d), 0, b);
            r.status == Error && ReadPort(r, 3).1 == 2 && r.disk == Zeros(UD_SIZE)
  {
    hide WritePort, ReadPort;
    StepOnDisk(Unmount(d), Write(0, b));
    CommandOutcome(Unmount(d), b);
    assert Unmount(d).disk == Zeros(UD_SIZE);
  }

  /** A reset ends whatever the drive was doing, keeps the disk and the addresses, and leaves the drive
      where every command is heard and time changes nothing. */
  lemma ResetIdles(d: Drive, b: byte, ms: nat)
    requires Inv(d)
    ensures var r := Reset(d);
            && !Busy(r.status) && Heard(r, b) && Tick(r, ms) == r && !r.doIrq && r.error == 0
            && r.disk == d.disk && r.media == d.media && ReadPort(r, 3).1 == 0xFF
            && ReadPort(r, 1).1 == ReadPort(d, 1).1 && ReadPort(r, 2).1 == ReadPort(d, 2).1
  {
  }

  // ------------------------------------------------------------------ distances

  /** Two milliseconds and five for every track between, in either direction. */
  lemma TrackDistance(a: nat, n: nat)
    requires n > 0
    ensures SeekTimeToTrack(a, a + n) == 5 * n + 2 && SeekTimeToTrack(a + n, a) == 5 * n + 2
    ensures SeekTimeToTrack(a, a) == 0
  {
  }

  /** A turn takes 200 milliseconds, and one sector's share of it is rounded up; back to a sector the head
      has passed, the disk has to go round. */
  lemma TurnTime(s: nat, t: nat, m: Media)
    requires m != NoDisk && s < SectorCount(m) && t < SectorCount(m)
    ensures var n, ms := (if t >= s then t - s else t + SectorCount(m) - s), SeekTimeToSector(s, t, SectorCount(m));
            SectorCount(m) * (ms - 1) < 200 * n <= SectorCount(m) * ms
    ensures SectorRwTime(SectorCount(m)) == match SectorCount(m) case 12 => 17 case 16 => 13 case _ => 10
  {
  }

  /** A finished seek leaves the head where it was sent, the side counted as 128 tracks. */
  lemma HeadArrives(d: Drive)
    requires Inv(d)
    ensures SeekDone(d).track == d.targetTrack && SeekDone(d).sector == SeekDone(d).targetSector
  {
  }

  /** So seeking again for the place the head is at takes no time on the first side of the disk, and
      642 milliseconds on the second. */
  lemma SeekAgain(d: Drive)
    requires Aimed(d) && d.track == d.targetTrack && d.sector == d.targetSector
    ensures var r := WritePort(d, 0, SEEK);
            && r.seekTime == (if d.targetTrack < 128 then 0 else 642)
            && (r.status == Ready <==> d.targetTrack < 128)
  {
    hide WritePort;
    SeekTimeOf(d, SEEK);
    if d.targetTrack >= 128 {
      TrackDistance(d.targetTrack % 128, 128);
      assert d.targetTrack == d.targetTrack % 128 + 128;
    }
    assert SeekTimeToSector(d.sector, d.targetSector, SectorCount(d.media)) == 0 by {
      NoTurn(d.sector, d.media);
    }
  }

  lemma NoTurn(s: nat, m: Media)
    requires m != NoDisk
    ensures SeekTimeToSector(s, s, SectorCount(m)) == 0
  {
  }
}
