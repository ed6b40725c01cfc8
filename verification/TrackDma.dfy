/** Consecutive sectors of a track read by DMA: seek-read and a sector job, over and over, with no
    register of the drive written in between. */
module TrackDma {
  import opened Bytes
  import opened Machine
  import opened SectorLoad
  import opened DiskRead
  import opened FloppyTransfer
  import Floppy

  /** Pieces of data one after the other. */
  function Flat(datas: seq<seq<byte>>): (data: seq<byte>)
    decreases |datas|
  {
    if datas == [] then [] else Flat(datas[..|datas| - 1]) + datas[|datas| - 1]
  }

  lemma {:induction false} FlatLength(datas: seq<seq<byte>>)
    requires forall x <- datas :: |x| == 512
    ensures |Flat(datas)| == 512 * |datas|
    decreases |datas|
  {
    if datas != [] {
      FlatLength(datas[..|datas| - 1]);
    }
  }

  /** `i` sectors of the track of `d` have been read. */
  predicate Along(d: Floppy.Drive, e: Floppy.Drive, i: nat) {
    && SameTrack(d, e) && e.disk == d.disk && i <= Floppy.SectorCount(d.media)
    && e.targetSector == After(d.targetSector, i, Floppy.SectorCount(d.media))
  }

  lemma AlongFacts(d: Floppy.Drive, e: Floppy.Drive, datas: seq<seq<byte>>, i: nat)
    requires Along(d, e, i) && i < |datas| <= Floppy.SectorCount(d.media) && Landed(d, d, datas)
    ensures Aimed(e) && SectorAt(e, e.targetSector) == datas[i]
  {
    hide Floppy.SectorOffset;
    assert SectorAt(d, After(d.targetSector, i, Floppy.SectorCount(d.media))) == datas[i];
  }

  /** Every piece is a sector. */
  lemma PiecesAreSectors(d: Floppy.Drive, datas: seq<seq<byte>>)
    requires Aimed(d) && |datas| <= Floppy.SectorCount(d.media) && Landed(d, d, datas)
    ensures |datas| <= 20 && (forall x <- datas :: |x| == 512) && Along(d, d, 0)
  {
    hide Floppy.SectorOffset;
    forall i | 0 <= i < |datas|
      ensures |datas[i]| == 512
    {
      assert SectorAt(d, After(d.targetSector, i, Floppy.SectorCount(d.media))) == datas[i];
    }
  }

  /** After one more sector the drive is one sector further. */
  lemma NextAlong(d: Floppy.Drive, e: Floppy.Drive, u: Sys, t: Sys, bank: byte, x: word, data: seq<byte>, i: nat)
    requires Along(d, e, i) && i < Floppy.SectorCount(d.media) && u.drive == e
    requires DataRead(u, t, bank, x, data) && Advanced(e, t.drive)
    ensures Along(d, t.drive, i + 1)
  {
    hide Floppy.NextSector, Loaded, Floppy.SectorOffset;
    NextIsAfter(e);
  }

  /** The next piece goes behind the earlier ones. */
  lemma NextPiece(s: Sys, u: Sys, u2: Sys, t: Sys, bank: byte, x: word, e: Floppy.Drive, datas: seq<seq<byte>>, i: nat)
    requires i < |datas| <= 20 && forall x <- datas :: |x| == 512
    requires DataRead(s, u, bank, x, Flat(datas[..i]))
    requires u2.mem == u.mem && u2.stackBank == u.stackBank && u2.env == u.env && u2.drive == u.drive
    requires Aimed(e) && SectorAt(e, e.targetSector) == datas[i]
    requires DataRead(u2, t, bank, Plus(x, 512 * i), SectorAt(e, e.targetSector))
    ensures DataRead(s, t, bank, x, Flat(datas[..i + 1]))
  {
    hide DataRead, SectorAt, Aimed;
    DataReadOk(s, u, bank, x, Flat(datas[..i]));
    SetupUnseen(u, u2, t, bank, Plus(x, 512 * i), e);
    FlatLength(datas[..i]);
    assert datas[..i + 1][..i] == datas[..i];
    ReadTwice(s, u, t, bank, x, Flat(datas[..i]), datas[i]);
  }

  lemma DataReadOk(s: Sys, t: Sys, bank: byte, x: word, data: seq<byte>)
    requires DataRead(s, t, bank, x, data)
    ensures Ok(s) && Ok(t) && Quiet(t)
  {
  }

  lemma NothingRead(s: Sys, bank: byte, x: word, datas: seq<seq<byte>>)
    requires Quiet(s) && RamBank(bank)
    ensures DataRead(s, s, bank, x, Flat(datas[..0]))
  {
    LoadedNothing(s.mem, bank - 0x80, x);
  }

  /** Reading the sectors after the one the drive is aimed at, each by a sector job. */
  method ReadTrack(m: Machine, n: nat, bank: byte, x: word, ghost datas: seq<seq<byte>>)
    requires m.Valid() && Quiet(m.State()) && RamBank(bank) && Aimed(m.State().drive)
    requires n == |datas| <= Floppy.SectorCount(m.State().drive.media)
    requires Landed(m.State().drive, m.State().drive, datas)
    modifies m.Devices(), m.Memories()
    ensures m.Valid() && DataRead(old(m.State()), m.State(), bank, x, Flat(datas))
  {
    hide DataRead, Landed, Along, SectorAt, Aimed, Machine.State, Machine.Valid;
    ghost var s := m.State();
    var i, at := 0, x;
    NothingRead(s, bank, x, datas);
    PiecesAreSectors(s.drive, datas);
    while i < n
      invariant i <= n && m.Valid() && at == Plus(x, 512 * i)
      invariant DataRead(s, m.State(), bank, x, Flat(datas[..i])) && Along(s.drive, m.State().drive, i)
    {
      ghost var u := m.State();
      DataReadOk(s, u, bank, x, Flat(datas[..i]));
      AlongFacts(s.drive, u.drive, datas, i);
      SetChannel(m, bank, at);
      ghost var u2 := m.State();
      var _ := SeekAndTransfer(m, 0x01, bank, at);
      NextAlong(s.drive, u.drive, u2, m.State(), bank, at, datas[i], i);
      NextPiece(s, u, u2, m.State(), bank, x, u.drive, datas, i);
      i := i + 1;
      at := Plus(at, 512);
    }
    assert datas[..n] == datas;
  }

  /** A track written through the port and read back by DMA: the same bytes, in order, in RAM. */
  method ReadBackByDma(m: Machine, ghost d: Floppy.Drive, ghost datas: seq<seq<byte>>, ghost ps: seq<Pause>,
                       n: nat, bank: byte, x: word)
    requires Aimed(d) && !Floppy.WriteProtected(d.media) && |ps| == |datas| == n <= Floppy.SectorCount(d.media)
    requires (forall y <- datas :: |y| == 512) && WritesPolled(d, datas, ps)
    requires m.Valid() && Quiet(m.State()) && RamBank(bank)
    requires m.State().drive == Rewound(WriteAll(d, datas, ps), d.targetSector)
    modifies m.Devices(), m.Memories()
    ensures m.Valid() && DataRead(old(m.State()), m.State(), bank, x, Flat(datas))
  {
    hide DataRead, Landed, SectorAt, WriteAll, WritesPolled, Machine.State, Machine.Valid;
    WriteAllSectors(d, datas, ps);
    StillLanded(d, WriteAll(d, datas, ps), datas);
    ReadTrack(m, n, bank, x, datas);
  }

  lemma StillLanded(d: Floppy.Drive, w: Floppy.Drive, datas: seq<seq<byte>>)
    requires SameTrack(d, w) && |datas| <= Floppy.SectorCount(d.media) && Landed(d, w, datas)
    ensures var r := Rewound(w, d.targetSector); Aimed(r) && r.media == d.media && Landed(r, r, datas)
  {
    hide Floppy.SectorOffset;
    var r := Rewound(w, d.targetSector);
    forall i | 0 <= i < |datas|
      ensures SectorAt(r, After(r.targetSector, i, Floppy.SectorCount(d.media))) == datas[i]
    {
      assert SectorAt(r, After(d.targetSector, i, Floppy.SectorCount(d.media)))
          == SectorAt(w, After(d.targetSector, i, Floppy.SectorCount(d.media)));
    }
  }
}
