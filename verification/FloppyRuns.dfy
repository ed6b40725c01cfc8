/** Runs of the floppy drive: every interleaving of port accesses, clock ticks, media changes and
    resets, and what such a run can and cannot do. */
module FloppyRuns {
  import opened Bytes
  import opened Floppy

  function Zeros(n: nat): (z: seq<byte>)
    ensures |z| == n && forall i :: 0 <= i < n ==> z[i] == 0
  {
    seq(n, _ => 0)
  }

  /** The state a drive has when the emulator starts. */
  function PowerOn(): (d: Drive)
    ensures Inv(d)
  {
    Drive(Zeros(UD_SIZE), Zeros(UD_SIZE), 0, 0, 0, 0, 0, 0, 0, false, Ready, NoDisk, 0, ERROR_NONE, false)
  }

  function MediaForSize(size: nat, wp: bool): Media {
    if size < 1 then NoDisk
    else if size <= 983040 then if wp then SDWP else SD
    else if size <= 1310720 then if wp then HDWP else HD
    else if wp then UDWP else UD
  }

  /** A drive that was not ready is told that its disk is gone. */
  predicate DiskGone(d: Drive, r: Drive) {
    if d.status == Ready then r.status == Ready && r.error == d.error else r.status == Error && r.error == 2
  }

  /** From `d` to `r` a file was inserted: it has become the disk, as far as the largest disk reaches,
      with the number of sectors its size calls for, and is protected if and only if it should be.
      An empty file is no disk. */
  predicate InsertedFile(d: Drive, r: Drive, file: seq<byte>, wp: bool, clear: bool)
    requires |d.disk| == |r.disk| == UD_SIZE
  {
    && r == d.(disk := r.disk, media := r.media, status := r.status, error := r.error) && DiskGone(d, r)
    && (WriteProtected(r.media) <==> wp && file != [])
    && SectorCount(r.media)
       == (if file == [] then 0 else if |file| <= 983040 then 12 else if |file| <= 1310720 then 16 else 20)
    && forall i :: 0 <= i < UD_SIZE ==>
        r.disk[i] == if i < |file| then file[i] else if clear || file == [] then 0 else d.disk[i]
  }

  /** Inserting a medium; at most UD_SIZE bytes of the file are read. Mounting drive 2 clears its
      image first (`clear`), mounting drive 1 leaves the old bytes behind the new ones. */
  function Mount(d: Drive, file: seq<byte>, wp: bool, clear: bool): (r: Drive)
    requires Inv(d)
    ensures Inv(r)
  {
    var d := if d.status != Ready then RaiseError(d, ERROR_NO_DISK) else d;
    var file := if |file| <= UD_SIZE then file else file[..UD_SIZE];
    if |file| < 1 then d.(media := NoDisk, disk := Zeros(UD_SIZE))
    else
      d.(media := MediaForSize(|file|, wp),
      disk := Splice(if clear then Zeros(UD_SIZE) else d.disk, 0, file))
  }

  /** What inserting a file does, whatever the drive was doing. */
  lemma MountInserts(d: Drive, file: seq<byte>, wp: bool, clear: bool)
    requires Inv(d)
    ensures InsertedFile(d, Mount(d, file, wp, clear), file, wp, clear)
  {
    var r := Mount(d, file, wp, clear);
    var n := if |file| <= UD_SIZE then |file| else UD_SIZE;
    MediaOfSize(n, wp);
    forall i | 0 <= i < UD_SIZE
      ensures r.disk[i] == if i < |file| then file[i] else if clear || file == [] then 0 else d.disk[i]
    {
    }
  }

  lemma MediaOfSize(n: nat, wp: bool)
    ensures WriteProtected(MediaForSize(n, wp)) <==> wp && n > 0
    ensures SectorCount(MediaForSize(n, wp))
         == if n == 0 then 0 else if n <= 983040 then 12 else if n <= 1310720 then 16 else 20
  {
  }

  function Unmount(d: Drive): (r: Drive)
    requires Inv(d)
    ensures Inv(r) && r.media == NoDisk && DiskGone(d, r)
    ensures r == d.(disk := r.disk, media := r.media, status := r.status, error := r.error)
    ensures forall i :: 0 <= i < UD_SIZE ==> r.disk[i] == 0
  {
    var d := d.(media := NoDisk);
    var d := if d.status != Ready then RaiseError(d, ERROR_NO_DISK) else d;
    d.(disk := Zeros(UD_SIZE))
  }

  function Reset(d: Drive): (r: Drive)
    requires Inv(d)
    ensures Inv(r)
  {
    d.(status := Ready, error := ERROR_NONE, doIrq := false, seekTime := 0, seekOngoing := false)
  }

  datatype Event =
    | Write(port: nat, b: byte)
    | Read(port: nat)
    | Clock(ms: nat)
    | Inserted(file: seq<byte>, wp: bool, clear: bool)
    | Ejected
    | ResetLine

  function Step(d: Drive, e: Event): (r: Drive)
    requires Inv(d)
    ensures Inv(r)
  {
    match e
    case Write(port, b) => WritePort(d, port, b)
    case Read(port) => ReadPort(d, port).0
    case Clock(ms) => Tick(d, ms)
    case Inserted(file, wp, clear) => Mount(d, file, wp, clear)
    case Ejected => Unmount(d)
    case ResetLine => Reset(d)
  }

  /** The invariant holds after every run; in particular each operation on the way was defined,
      so no sector count was zero in a modulo and no buffer or disk access was out of range. */
  function Run(d: Drive, es: seq<Event>): (r: Drive)
    requires Inv(d)
    ensures Inv(r)
    decreases |es|
  {
    if es == [] then d else Run(Step(d, es[0]), es[1..])
  }

  // ------------------------------------------------------------------ waiting

  function Ticks(d: Drive, ds: seq<nat>): (r: Drive)
    requires Inv(d)
    ensures Inv(r)
    decreases |ds|
  {
    if ds == [] then d else Ticks(Tick(d, ds[0]), ds[1..])
  }

  function Sum(ds: seq<nat>): nat {
    if ds == [] then 0 else ds[0] + Sum(ds[1..])
  }

  /** The state in which a pending seek leaves the drive. */
  function Settled(d: Drive): (r: Drive)
    requires Inv(d)
    ensures Inv(r) && !Busy(r.status) && !r.seekOngoing && r.disk == d.disk
  {
    SeekDone(d.(seekTime := 0)).(seekOngoing := false)
  }

  lemma {:induction false} TicksWhenIdle(d: Drive, ds: seq<nat>)
    requires Inv(d) && !d.seekOngoing
    ensures Ticks(d, ds) == d
    decreases |ds|
  {
    if ds != [] {
      TicksWhenIdle(d, ds[1..]);
    }
  }

  /** However time is cut into ticks, a pending seek is over exactly when the ticks have summed to
      its remaining time, and the state it ends in does not depend on the cutting. */
  lemma {:induction false} TicksSettle(d: Drive, ds: seq<nat>)
    requires Inv(d) && d.seekOngoing && ds != []
    ensures Sum(ds) >= d.seekTime ==> Ticks(d, ds) == Settled(d)
    ensures Sum(ds) < d.seekTime ==> Ticks(d, ds) == d.(seekTime := d.seekTime - Sum(ds))
    decreases |ds|
  {
    var d' := Tick(d, ds[0]);
    if !d'.seekOngoing {
      TicksWhenIdle(d', ds[1..]);
    } else if ds[1..] == [] {
      assert Ticks(d', ds[1..]) == d' && Sum(ds[1..]) == 0;
    } else {
      TicksSettle(d', ds[1..]);
    }
  }

  /** A drive that was found busy after any run is busy after a first batch of ticks exactly when
      they have not yet summed to the pending time, and never busy after a second and a half. */
  lemma BusyEnds(es: seq<Event>, ds: seq<nat>)
    requires Busy(Run(PowerOn(), es).status) && ds != []
    ensures var d := Run(PowerOn(), es);
            && (Busy(Ticks(d, ds).status) <==> Sum(ds) < d.seekTime)
            && (Sum(ds) >= MAX_SEEK_TIME ==> !Busy(Ticks(d, ds).status))
  {
    TicksSettle(Run(PowerOn(), es), ds);
  }

  // ------------------------------------------------------------------ what a run does to the disk

  /** Port accesses, ticks and resets: everything but media changes. */
  predicate Quiet(es: seq<Event>) {
    forall e <- es :: !e.Inserted? && !e.Ejected?
  }

  /** The event that completes a sector: the 512th data byte of a write. */
  predicate Commits(d: Drive, e: Event) {
    e.Write? && e.port == 3 && d.status == Writing && d.sectorOffset == SECTOR - 1
  }

  datatype Patch = Patch(offset: nat, data: seq<byte>)

  /** The sectors committed along a run, each as its offset and its 512 bytes. */
  function Commitments(d: Drive, es: seq<Event>): (ps: seq<Patch>)
    requires Inv(d)
    ensures forall p <- ps :: |p.data| == SECTOR && p.offset % SECTOR == 0 && p.offset + SECTOR <= UD_SIZE
    decreases |es|
  {
    if es == [] then []
    else
      var rest := Commitments(Step(d, es[0]), es[1..]);
      if Commits(d, es[0]) then
        [Patch(d.diskOffset, d.buffer[..SECTOR - 1] + [es[0].b])] + rest
      else rest
  }

  function Patched(disk: seq<byte>, ps: seq<Patch>): (r: seq<byte>)
    requires forall p <- ps :: p.offset + |p.data| <= |disk|
    ensures |r| == |disk|
    decreases |ps|
  {
    if ps == [] then disk
    else Patched(Splice(disk, ps[0].offset, ps[0].data), ps[1..])
  }

  lemma StepOnDisk(d: Drive, e: Event)
    requires Inv(d) && Quiet([e])
    ensures Step(d, e).media == d.media
    ensures Commits(d, e) ==>
              Step(d, e).disk == Splice(d.disk, d.diskOffset, d.buffer[..SECTOR - 1] + [e.b])
              && SectorOnDisk(d) && !WriteProtected(d.media)
    ensures !Commits(d, e) ==> Step(d, e).disk == d.disk
  {
    assert e in [e];
    if Commits(d, e) {
      assert d.buffer[SECTOR - 1 := e.b][..SECTOR] == d.buffer[..SECTOR - 1] + [e.b];
    }
  }

  /** Along every run without media changes, the disk is its first contents with exactly the
      committed sectors replaced, in order; and if the medium is write-protected there are none. */
  lemma {:induction false} DiskChangesBySectors(d: Drive, es: seq<Event>)
    requires Inv(d) && Quiet(es)
    ensures Run(d, es).media == d.media
    ensures Run(d, es).disk == Patched(d.disk, Commitments(d, es))
    ensures WriteProtected(d.media) ==> Commitments(d, es) == [] && Run(d, es).disk == d.disk
    ensures forall p <- Commitments(d, es) :: p.offset + SECTOR <= DiskSize(d.media)
    decreases |es|
  {
    if es != [] {
      assert es[0] in es && Quiet([es[0]]);
      assert Quiet(es[1..]) by {
        assert forall e <- es[1..] :: e in es;
      }
      StepOnDisk(d, es[0]);
      DiskChangesBySectors(Step(d, es[0]), es[1..]);
      if Commits(d, es[0]) {
        var ps := Commitments(d, es);
        assert ps[1..] == Commitments(Step(d, es[0]), es[1..]);
      }
    }
  }

  /** A file inserted with write protection stays as it is: no run of port accesses, ticks and resets
      changes a byte of it, or its protection. */
  lemma ProtectedFileStays(d: Drive, file: seq<byte>, clear: bool, es: seq<Event>)
    requires Inv(d) && file != [] && Quiet(es)
    ensures var r := Run(Mount(d, file, true, clear), es);
            && WriteProtected(r.media) && r.disk == Mount(d, file, true, clear).disk
            && forall i :: 0 <= i < |file| && i < UD_SIZE ==> r.disk[i] == file[i]
  {
    hide Mount, Quiet, Commitments, Run;
    MountInserts(d, file, true, clear);
    DiskChangesBySectors(Mount(d, file, true, clear), es);
  }

  /** What is saved of a disk that is not protected: its sectors, and not the rest of the image. */
  function Saved(d: Drive): (file: seq<byte>)
    requires Inv(d)
  {
    d.disk[..DiskSize(d.media)]
  }

  /** A saved disk that is inserted again, in any drive, is the same disk. */
  lemma SavedDiskComesBack(d: Drive, e: Drive, clear: bool)
    requires Inv(d) && Inv(e) && d.media != NoDisk && !WriteProtected(d.media)
    ensures var r := Mount(e, Saved(d), false, clear);
            r.media == d.media && r.disk[..DiskSize(d.media)] == d.disk[..DiskSize(d.media)]
  {
    hide Mount;
    SizeOfMedia(d);
    MountInserts(e, Saved(d), false, clear);
    var r := Mount(e, Saved(d), false, clear);
    forall i | 0 <= i < DiskSize(d.media)
      ensures r.disk[i] == d.disk[i]
    {
      assert Saved(d)[i] == d.disk[i];
    }
  }

  lemma SizeOfMedia(d: Drive)
    requires Inv(d) && d.media != NoDisk
    ensures |Saved(d)| == DiskSize(d.media) && 0 < DiskSize(d.media) <= UD_SIZE
    ensures DiskSize(d.media)
         == if SectorCount(d.media) == 12 then 983040 else if SectorCount(d.media) == 16 then 1310720 else 1638400
  {
  }
}
