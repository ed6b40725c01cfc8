/** The floppy drive controller as a state machine: one function per operation of the drive,
    the invariant of every reachable state, and what any run can do to the disk. */
module Floppy {
  import opened Bytes

  const TRACKS := 80
  const SECTOR := 512
  const UD_SIZE := 1638400

  datatype Media = NoDisk | SD | HD | UD | SDWP | HDWP | UDWP

  datatype Status = Ready | Seek | SeekRead | SeekWrite | Reading | Writing | Error | DiskWrite

  const ERROR_NONE: byte := 0
  const ERROR_BUSY: byte := 1
  const ERROR_NO_DISK: byte := 2
  const ERROR_FAIL_SEEK: byte := 3
  const ERROR_FAIL_WRITE: byte := 5

  predicate WriteProtected(m: Media) { m.SDWP? || m.HDWP? || m.UDWP? }

  function SectorCount(m: Media): nat {
    match m
    case NoDisk => 0
    case SD | SDWP => 12
    case HD | HDWP => 16
    case UD | UDWP => 20
  }

  function DiskSize(m: Media): nat { 2 * TRACKS * SECTOR * SectorCount(m) }

  /** Division as C does it: truncated toward zero. */
  function TruncDiv(a: int, b: int): int
    requires b > 0
  {
    if a >= 0 then a / b else -((-a) / b)
  }

  function SeekTimeToTrack(current: int, target: int): int {
    if current == target then 0
    else (if current - target < 0 then target - current else current - target) * 5 + 2
  }

  function SeekTimeToSector(current: int, target: int, count: int): int
    requires count > 0
  {
    var target' := if target < current then target + count else target;
    TruncDiv((target' - current) * 200 + (count - 1), count)
  }

  function SectorRwTime(count: int): int
    requires count > 0
  {
    SeekTimeToSector(0, 1, count)
  }

  datatype Drive = Drive(
    disk: seq<byte>, buffer: seq<byte>,
    track: nat, sector: nat, targetTrack: nat, targetSector: nat,
    sectorOffset: nat, diskOffset: nat,
    seekTime: int, seekOngoing: bool,
    status: Status, media: Media,
    side: nat, error: byte, doIrq: bool)

  predicate Busy(s: Status) { s.Seek? || s.SeekRead? || s.SeekWrite? || s.DiskWrite? }

  /** The states in which a sector of the disk has been addressed. */
  predicate Addressed(s: Status) { !s.Ready? && !s.Error? }

  /** No seek, however far, takes longer than this many milliseconds. */
  const MAX_SEEK_TIME := 1494

  /** The addressed sector is one of the aligned sectors of the mounted disk. */
  predicate SectorOnDisk(d: Drive) {
    d.diskOffset % SECTOR == 0 && d.diskOffset + SECTOR <= DiskSize(d.media)
  }

  /** The invariant of every reachable drive state. */
  predicate Inv(d: Drive) {
    && |d.disk| == UD_SIZE && |d.buffer| == UD_SIZE
    && d.track < 256 && d.targetTrack < 256 && d.side < 2
    && d.sector < 32 && d.targetSector < 32
    && d.sectorOffset < SECTOR
    && d.seekTime <= MAX_SEEK_TIME
    && (Busy(d.status) ==> d.seekOngoing)
    && (Addressed(d.status) ==> d.media != NoDisk && SectorOnDisk(d))
    && (d.status in {SeekWrite, Writing, DiskWrite} ==> !WriteProtected(d.media))
  }

  // ------------------------------------------------------------------ operations

  function ClearError(d: Drive): Drive {
    if d.status == Error then d.(status := Ready, error := ERROR_NONE) else d
  }

  function RaiseError(d: Drive, e: byte): Drive { d.(status := Error, error := e) }

  function SectorData(d: Drive): (bs: seq<byte>)
    requires d.diskOffset + SECTOR <= |d.disk|
    ensures |bs| == SECTOR
  {
    d.disk[d.diskOffset..d.diskOffset + SECTOR]
  }

  function NextSector(d: Drive): nat
    requires d.media != NoDisk
  {
    match d.media
    case SD | SDWP => (d.targetSector + 1) % 12
    case HD | HDWP => (d.targetSector + 1) % 16
    case UD | UDWP => (d.targetSector + 1) % 20
  }

  function ReadSector(d: Drive): Drive
    requires Inv(d) && d.media != NoDisk && SectorOnDisk(d)
  {
    d.(buffer := Splice(d.buffer, 0, SectorData(d)),
    targetSector := NextSector(d), sector := NextSector(d), sectorOffset := 0)
  }

  function WriteSector(d: Drive): Drive
    requires Inv(d) && d.media != NoDisk && SectorOnDisk(d)
  {
    d.(disk := Splice(d.disk, d.diskOffset, d.buffer[..SECTOR]),
    status := DiskWrite, seekOngoing := true,
    seekTime := SectorRwTime(SectorCount(d.media)))
  }

  function SeekDone(d: Drive): (r: Drive)
    requires Inv(d)
    ensures Inv(r) && !Busy(r.status)
    ensures r.disk == d.disk && r.media == d.media
  {
    var d' := match d.status
      case DiskWrite => d.(targetSector := NextSector(d), status := Ready)
      case Seek => d.(status := Ready)
      case SeekRead => ReadSector(d).(status := Reading)
      case SeekWrite => d.(status := Writing)
      case _ => d;
    d'.(sector := d'.targetSector, track := d'.targetTrack)
  }

  /** The byte offset of a sector: sides, then tracks, then sectors. */
  function SectorOffset(side: nat, track: nat, sector: nat, count: nat): nat {
    ((side * TRACKS + track) * count + sector) * SECTOR
  }

  /** An addressed sector lies inside the disk, at a multiple of the sector size. */
  lemma SectorOffsetInside(side: nat, track: nat, sector: nat, m: Media)
    requires side < 2 && track < TRACKS && sector < SectorCount(m)
    ensures SectorOffset(side, track, sector, SectorCount(m)) % SECTOR == 0
    ensures SectorOffset(side, track, sector, SectorCount(m)) + SECTOR <= DiskSize(m)
  {
    var row := side * TRACKS + track;
    assert row < 2 * TRACKS;
    match m
    case NoDisk =>
    case SD | SDWP => assert row * 12 + sector < 1920;
    case HD | HDWP => assert row * 16 + sector < 2560;
    case UD | UDWP => assert row * 20 + sector < 3200;
  }

  /** Positioning the head takes a bounded time; it can even come out negative after a media change. */
  lemma SeekTimeBound(track: nat, target: nat, sector: nat, targetSector: nat, m: Media)
    requires track < 256 && target < TRACKS && sector < 32 && targetSector < SectorCount(m)
    ensures SeekTimeToTrack(track, target) <= 1277
    ensures SeekTimeToSector(sector, targetSector, SectorCount(m)) <= 200
  {
    match m
    case NoDisk =>
    case SD | SDWP =>
    case HD | HDWP =>
    case UD | UDWP =>
  }

  function SeekTo(d: Drive, write: bool): (r: Drive)
    requires Inv(d)
    ensures Inv(r) && r.disk == d.disk && r.media == d.media
    ensures r.status == Seek || r.status == Error
    ensures write && r.status == Seek ==> !WriteProtected(r.media)
    ensures r.status == Seek ==> r.seekTime <= MAX_SEEK_TIME - 17
  {
    var targetTrack := d.targetTrack % 128;
    var d := d.(side := d.targetTrack / 128);
    if Busy(d.status) then RaiseError(d, ERROR_BUSY)
    else if d.media == NoDisk then RaiseError(d, ERROR_NO_DISK)
    else if write && WriteProtected(d.media) then RaiseError(d, ERROR_FAIL_WRITE)
    else if targetTrack >= TRACKS then RaiseError(d, ERROR_FAIL_SEEK)
    else if d.targetSector >= SectorCount(d.media) then RaiseError(d, ERROR_FAIL_SEEK)
    else
      var count := SectorCount(d.media);
      SectorOffsetInside(d.side, targetTrack, d.targetSector, d.media);
      SeekTimeBound(d.track, targetTrack, d.sector, d.targetSector, d.media);
      d.(diskOffset := SectorOffset(d.side, targetTrack, d.targetSector, count),
      seekOngoing := true,
      seekTime := SeekTimeToTrack(d.track, targetTrack)
      + SeekTimeToSector(d.sector, d.targetSector, count),
      sectorOffset := 0,
      status := Seek)
  }

  /** A seek that goes on to read the sector. */
  function BeginRead(d: Drive): (r: Drive)
    requires Inv(d) && d.status == Seek && d.seekTime <= MAX_SEEK_TIME - 17
    ensures Inv(r)
  {
    d.(status := SeekRead, seekOngoing := true,
    seekTime := d.seekTime + SectorRwTime(SectorCount(d.media)))
  }

  function StartRead(d: Drive): (r: Drive)
    requires Inv(d)
    ensures Inv(r) && r.disk == d.disk && r.media == d.media
  {
    var d := SeekTo(d, false);
    if d.status == Seek then
      var d := BeginRead(d);
      if d.seekTime <= 0 then SeekDone(d) else d
    else d
  }

  function StartWrite(d: Drive): (r: Drive)
    requires Inv(d)
    ensures Inv(r) && r.disk == d.disk && r.media == d.media
  {
    var d := SeekTo(d, true);
    if d.status == Seek then
      var d := d.(status := SeekWrite);
      if d.seekTime == 0 then SeekDone(d) else d
    else d
  }

  function StartSeek(d: Drive): (r: Drive)
    requires Inv(d)
    ensures Inv(r) && r.disk == d.disk && r.media == d.media
  {
    var d := SeekTo(d, false);
    if d.status == Seek && d.seekTime <= 0 then SeekDone(d) else d
  }

  /** A write to the control port: bit 5 interrupts, bit 6 acknowledges an error, bits 1-0 the command. */
  function Control(d: Drive, b: byte): (r: Drive)
    requires Inv(d)
    ensures Inv(r) && r.disk == d.disk && r.media == d.media
  {
    var d := d.(doIrq := b / 32 % 2 == 1);
    if b / 64 % 2 == 0 && d.status == Error then d
    else
      var d := if b / 64 % 2 == 1 then ClearError(d) else d;
      match b % 4
      case 1 => StartRead(d)
      case 2 => StartWrite(d)
      case 3 => StartSeek(d)
      case _ => d
  }

  function ReadByte(d: Drive): (r: (Drive, byte))
    requires Inv(d)
    ensures Inv(r.0) && r.0.disk == d.disk && r.0.media == d.media
  {
    if d.status != Reading then (d, 0)
    else if d.sectorOffset + 1 >= SECTOR then
      (d.(sectorOffset := 0, status := Ready), d.buffer[d.sectorOffset])
    else
      (d.(sectorOffset := d.sectorOffset + 1), d.buffer[d.sectorOffset])
  }

  function WriteByte(d: Drive, b: byte): (r: Drive)
    requires Inv(d)
    ensures Inv(r) && r.media == d.media
  {
    if d.status != Writing then d
    else
      var d' := d.(buffer := d.buffer[d.sectorOffset := b]);
      if d.sectorOffset + 1 >= SECTOR then WriteSector(d'.(sectorOffset := 0))
      else d'.(sectorOffset := d.sectorOffset + 1)
  }

  function ReadPort(d: Drive, port: nat): (r: (Drive, byte))
    requires Inv(d)
    ensures Inv(r.0) && r.0.disk == d.disk && r.0.media == d.media
  {
    match port
    case 1 => (d, d.targetSector)
    case 2 => (d, d.targetTrack)
    case 3 =>
      if d.status == Reading then ReadByte(d)
      else if d.status == Error then (d, d.error)
      else (d, 0xFF)
    case _ => (d, 0xFF)
  }

  function WritePort(d: Drive, port: nat, b: byte): (r: Drive)
    requires Inv(d)
    ensures Inv(r) && r.media == d.media
  {
    match port
    case 0 => Control(d, b)
    case 1 => d.(targetSector := b % 32)
    case 2 => d.(targetTrack := b)
    case 3 => WriteByte(d, b)
    case _ => d
  }

  /** The bits of the status port that tell the medium and whether it is protected. */
  function MediaBits(m: Media): bv8 {
    match m
    case NoDisk => 0
    case SD => 0x0C
    case HD => 0x10
    case UD => 0x14
    case SDWP => 0x0E
    case HDWP => 0x12
    case UDWP => 0x16
  }

  /** A read of the status port, whose bits are added to those of an uninitialised byte. */
  function StatusPort(d: Drive, stale: bv8): bv8 {
    var s := if !Busy(d.status) then stale | 0x80
             else if d.status == Error then stale | 0x40
             else stale;
    s | MediaBits(d.media) | if d.doIrq then 0x20 else 0
  }

  /** Bit 7 shows that the drive is not busy; bit 6, which is meant to show an error, shows nothing but
      the uninitialised byte, whatever state the drive is in. */
  lemma ErrorIsNeverShown(d: Drive, stale: bv8)
    ensures StatusPort(d, stale) & 0x40 == stale & 0x40
    ensures StatusPort(d, stale) & 0x80 != 0 <==> !Busy(d.status) || stale & 0x80 != 0
  {
  }

  /** The error code of a read command on an idle drive that cannot be carried out. */
  function SeekFault(m: Media): byte { if m == NoDisk then ERROR_NO_DISK else ERROR_FAIL_SEEK }

  function Tick(d: Drive, ms: nat): (r: Drive)
    requires Inv(d)
    ensures Inv(r) && r.disk == d.disk && r.media == d.media
  {
    if !d.seekOngoing then d
    else if d.seekTime - ms <= 0 then SeekDone(d.(seekTime := 0)).(seekOngoing := false)
    else d.(seekTime := d.seekTime - ms)
  }
}
