/** The on-disk format of an ELFS floppy volume: geometry by medium, the master block, the chunk
    table and the data chunks, as views of the bytes of an image. */
module Elfs {
  import opened Bytes
  import opened ChunkTable

  /** 1, 2 and 3 are the 960, 1280 and 1600 KB floppies. */
  type MediaId = x: int | 1 <= x <= 3 witness 1

  function SectorsPerTrack(id: MediaId): nat {
    match id case 1 => 12 case 2 => 16 case _ => 20
  }

  function Sectors(id: MediaId): nat {
    match id case 1 => 1920 case 2 => 2560 case _ => 3200
  }

  function TableSectors(id: MediaId): nat {
    match id case 1 => 4 case 2 => 6 case _ => 8
  }

  /** One more than the highest usable chunk. */
  function Chunks(id: MediaId): nat {
    match id case 1 => 957 case 2 => 1276 case _ => 1595
  }

  /** The offset chunk numbers count from; chunk 1 follows the table. */
  function Base(id: MediaId): nat { 512 * TableSectors(id) }

  predicate Sized(img: seq<byte>, id: MediaId) { |img| == 512 * Sectors(id) }

  function BootSector(img: seq<byte>, id: MediaId): seq<byte>
    requires Sized(img, id)
  {
    img[..512]
  }

  function MasterOf(img: seq<byte>, id: MediaId): (m: seq<byte>)
    requires Sized(img, id)
    ensures |m| == 512
  {
    img[512..1024]
  }

  function TableBytes(img: seq<byte>, id: MediaId): (bs: seq<byte>)
    requires Sized(img, id)
    ensures |bs| == Base(id)
  {
    img[1024..1024 + Base(id)]
  }

  function TableOf(img: seq<byte>, id: MediaId): (t: seq<word>)
    requires Sized(img, id)
    ensures |t| == 256 * TableSectors(id)
  {
    Words(TableBytes(img, id))
  }

  function ChunkOffset(id: MediaId, c: nat): nat { Base(id) + 1024 * c }

  lemma ChunkInside(id: MediaId, c: nat)
    requires 1 <= c < Chunks(id)
    ensures 1024 + Base(id) <= ChunkOffset(id, c) <= ChunkOffset(id, c) + 1024 <= 512 * Sectors(id)
  {
  }

  function ChunkAt(img: seq<byte>, id: MediaId, c: nat): (bs: seq<byte>)
    requires Sized(img, id) && 1 <= c < Chunks(id)
    ensures |bs| == 1024
  {
    ChunkInside(id, c);
    img[ChunkOffset(id, c)..ChunkOffset(id, c) + 1024]
  }

  function FreeSpace(img: seq<byte>, id: MediaId): nat
    requires Sized(img, id)
  {
    LongAt(MasterOf(img, id), 0x34)
  }

  function BootPointer(img: seq<byte>, id: MediaId): word
    requires Sized(img, id)
  {
    WordAt(MasterOf(img, id), 0x1A)
  }

  /** The fields of the master block that describe the volume and never change. */
  predicate Described(img: seq<byte>, id: MediaId)
    requires Sized(img, id)
  {
    var m := MasterOf(img, id);
    && m[0] == 0x45 && m[1] == 0x4C && m[2] == 0x46 && m[3] == 0x53
    && WordAt(m, 0x08) == id
    && WordAt(m, 0x10) == 10
    && WordAt(m, 0x12) == Chunks(id) - 1
    && WordAt(m, 0x14) == SectorsPerTrack(id) / 2
    && WordAt(m, 0x16) == TableSectors(id)
    && WordAt(m, 0x18) == 2
    && LongAt(m, 0x30) == 1024 * Chunks(id)
    && LongAt(m, 0x38) == 2 + TableSectors(id)
  }

  /** What the master block says that no reader depends on: the volume attributes, the serial number and
      the title. */
  function Label(img: seq<byte>, id: MediaId): (bs: seq<byte>)
    requires Sized(img, id)
    ensures |bs| == 22
  {
    var m := MasterOf(img, id);
    m[0x04..0x08] + m[0x0A..0x0C] + m[0x20..0x30]
  }

  /** The free-space field counts the free chunks and one chunk more. */
  predicate FreeSpaceExact(img: seq<byte>, id: MediaId)
    requires Sized(img, id)
  {
    FreeSpace(img, id) == 1024 * (FreeCount(TableOf(img, id), Chunks(id)) + 1)
  }

  /** The data chunks other than the listed ones, and the boot sector, are the same in both images. */
  predicate SameBut(img: seq<byte>, jmg: seq<byte>, id: MediaId, cs: seq<nat>)
    requires Sized(img, id) && Sized(jmg, id)
  {
    && BootSector(jmg, id) == BootSector(img, id)
    && forall c :: 1 <= c < Chunks(id) && c !in cs ==> ChunkAt(jmg, id, c) == ChunkAt(img, id, c)
  }

  // ------------------------------------------------------------------ the effect of a write, by region

  /** A write inside the master block. */
  lemma MasterWrite(img: seq<byte>, id: MediaId, off: nat, bs: seq<byte>)
    requires Sized(img, id) && off + |bs| <= 512
    ensures var jmg := Splice(img, 512 + off, bs);
            && MasterOf(jmg, id) == Splice(MasterOf(img, id), off, bs)
            && TableOf(jmg, id) == TableOf(img, id)
            && SameBut(img, jmg, id, [])
  {
    var jmg := Splice(img, 512 + off, bs);
    SpliceWithin(img, 512 + off, bs, 512, 1024);
    SpliceElsewhere(img, 512 + off, bs, 1024, 1024 + Base(id));
    SpliceElsewhere(img, 512 + off, bs, 0, 512);
    forall c | 1 <= c < Chunks(id)
      ensures ChunkAt(jmg, id, c) == ChunkAt(img, id, c)
    {
      ChunkInside(id, c);
      SpliceElsewhere(img, 512 + off, bs, ChunkOffset(id, c), ChunkOffset(id, c) + 1024);
    }
  }

  /** A write of one table entry. */
  lemma TableWrite(img: seq<byte>, id: MediaId, i: nat, w: word)
    requires Sized(img, id) && i < 256 * TableSectors(id)
    ensures var jmg := Splice(img, 1024 + 2 * i, WordBytes(w));
            && MasterOf(jmg, id) == MasterOf(img, id)
            && TableOf(jmg, id) == TableOf(img, id)[i := w]
            && SameBut(img, jmg, id, [])
  {
    var jmg, bs := Splice(img, 1024 + 2 * i, WordBytes(w)), WordBytes(w);
    SpliceWithin(img, 1024 + 2 * i, bs, 1024, 1024 + Base(id));
    WordsSplice(TableBytes(img, id), i, w);
    SpliceElsewhere(img, 1024 + 2 * i, bs, 512, 1024);
    SpliceElsewhere(img, 1024 + 2 * i, bs, 0, 512);
    forall c | 1 <= c < Chunks(id)
      ensures ChunkAt(jmg, id, c) == ChunkAt(img, id, c)
    {
      ChunkInside(id, c);
      SpliceElsewhere(img, 1024 + 2 * i, bs, ChunkOffset(id, c), ChunkOffset(id, c) + 1024);
    }
  }

  /** A write inside one data chunk. */
  lemma ChunkWrite(img: seq<byte>, id: MediaId, f: nat, off: nat, bs: seq<byte>)
    requires Sized(img, id) && 1 <= f < Chunks(id) && off + |bs| <= 1024
    ensures ChunkOffset(id, f) + 1024 <= |img|
    ensures var jmg := Splice(img, ChunkOffset(id, f) + off, bs);
            && MasterOf(jmg, id) == MasterOf(img, id)
            && TableOf(jmg, id) == TableOf(img, id)
            && SameBut(img, jmg, id, [f])
            && ChunkAt(jmg, id, f) == Splice(ChunkAt(img, id, f), off, bs)
  {
    ChunkInside(id, f);
    var at := ChunkOffset(id, f) + off;
    var jmg := Splice(img, at, bs);
    SpliceWithin(img, at, bs, ChunkOffset(id, f), ChunkOffset(id, f) + 1024);
    SpliceElsewhere(img, at, bs, 1024, 1024 + Base(id));
    SpliceElsewhere(img, at, bs, 512, 1024);
    SpliceElsewhere(img, at, bs, 0, 512);
    forall c | 1 <= c < Chunks(id) && c !in [f]
      ensures ChunkAt(jmg, id, c) == ChunkAt(img, id, c)
    {
      ChunkInside(id, c);
      SpliceElsewhere(img, at, bs, ChunkOffset(id, c), ChunkOffset(id, c) + 1024);
    }
  }

  lemma SameButTrans(a: seq<byte>, b: seq<byte>, c: seq<byte>, id: MediaId, cs: seq<nat>, ds: seq<nat>, es: seq<nat>)
    requires Sized(a, id) && Sized(b, id) && Sized(c, id)
    requires SameBut(a, b, id, cs) && SameBut(b, c, id, ds)
    requires forall x :: x in cs || x in ds ==> x in es
    ensures SameBut(a, c, id, es)
  {
  }

  // ------------------------------------------------------------------ files

  /** A stored file: its directory name, attributes and date, its bytes, and the chunks that hold them. */
  datatype File = File(name: seq<byte>, attr: word, date: seq<byte>, content: seq<byte>, chain: seq<nat>)

  /** The number of chunks a file of so many bytes occupies; an empty file has one. */
  function Blocks(size: nat): nat { if size == 0 then 1 else (size + 1023) / 1024 }

  /** The bytes of a file that its i-th chunk starts with. */
  function Piece(content: seq<byte>, i: nat): (p: seq<byte>)
    ensures |p| <= 1024
  {
    if 1024 * i >= |content| then []
    else if 1024 * (i + 1) <= |content| then content[1024 * i..1024 * (i + 1)]
    else content[1024 * i..]
  }

  /** The first `k` pieces of the content are at the start of the first `k` chunks of the chain. */
  predicate Holds(img: seq<byte>, id: MediaId, chain: seq<nat>, content: seq<byte>, k: nat)
    requires Sized(img, id)
  {
    k <= |chain| && forall i :: 0 <= i < k ==>
      1 <= chain[i] < Chunks(id) && Piece(content, i) <= ChunkAt(img, id, chain[i])
  }

  predicate Stored(img: seq<byte>, id: MediaId, f: File)
    requires Sized(img, id)
  {
    |f.chain| == Blocks(|f.content|) && Holds(img, id, f.chain, f.content, |f.chain|)
  }

  lemma HoldsKept(img: seq<byte>, jmg: seq<byte>, id: MediaId, chain: seq<nat>, content: seq<byte>, k: nat,
                  cs: seq<nat>)
    requires Sized(img, id) && Sized(jmg, id) && SameBut(img, jmg, id, cs) && Disjoint(chain, cs)
    requires Holds(img, id, chain, content, k)
    ensures Holds(jmg, id, chain, content, k)
  {
    forall i | 0 <= i < k
      ensures Piece(content, i) <= ChunkAt(jmg, id, chain[i])
    {
      assert chain[i] in chain;
    }
  }

  /** The k-th 32-byte slot of the root directory, which is chunk 1. */
  function Slot(img: seq<byte>, id: MediaId, k: nat): (e: seq<byte>)
    requires Sized(img, id) && k < 32
    ensures |e| == 32
  {
    ChunkAt(img, id, 1)[32 * k..32 * k + 32]
  }

  /** The 32 bytes of a directory entry: attributes, high byte first, then the name, five zeros, the date,
      the size and the first chunk. */
  predicate EntryIs(e: seq<byte>, attr: word, name: seq<byte>, date: seq<byte>, size: nat, start: nat)
    requires |e| == 32
  {
    && e[0] == attr / 256 && e[1] == attr % 256 && e[2..16] == name
    && (forall j :: 16 <= j < 21 ==> e[j] == 0) && e[21..26] == date
    && LongAt(e, 0x1A) == size && WordAt(e, 0x1E) == start
  }

  /** The directory entry of a file. */
  predicate Listed(img: seq<byte>, id: MediaId, k: nat, f: File)
    requires Sized(img, id) && k < 32 && f.chain != []
  {
    EntryIs(Slot(img, id, k), f.attr, f.name, f.date, |f.content|, f.chain[0])
  }

  /** The root directory's entry for itself: a directory of no size in chunk 1. */
  predicate RootEntry(e: seq<byte>, date: seq<byte>)
    requires |e| == 32
  {
    EntryIs(e, 0x4000, SELF, date, 0, 1)
  }

  function RootDate(img: seq<byte>, id: MediaId): (date: seq<byte>)
    requires Sized(img, id)
    ensures |date| == 5
  {
    Slot(img, id, 0)[21..26]
  }

  /** A directory name as the volume writer pads it: ten characters, a dot, three characters. */
  predicate DirName(name: seq<byte>) {
    |name| == 14 && name[10] == 0x2E && 0 !in name
  }

  /** The name of the root directory's entry for itself. */
  const SELF: seq<byte> := [0x2E, 0x20, 0x20, 0x20, 0x20, 0x20, 0x20, 0x20, 0x20, 0x20, 0x2E, 0x20, 0x20, 0x20]

  /** The directory name of the system file. */
  const DOS_SYS: seq<byte> := [0x44, 0x4F, 0x53, 0x20, 0x20, 0x20, 0x20, 0x20, 0x20, 0x20, 0x2E, 0x53, 0x59, 0x53]

  /** A line of the volume description: a file to be added, and whether its source is called DOS.SYS. */
  datatype Addition = Addition(isDosSys: bool, name: seq<byte>, attr: word, date: seq<byte>, content: seq<byte>)

  predicate WellNamed(a: Addition) {
    DirName(a.name) && |a.date| == 5 && (a.isDosSys ==> a.name == DOS_SYS)
  }

  function SlotName(img: seq<byte>, id: MediaId, k: nat): (n: seq<byte>)
    requires Sized(img, id) && k < 32
    ensures |n| == 14
  {
    Slot(img, id, k)[2..16]
  }

  predicate NamesDistinct(files: seq<File>) {
    && (forall i :: 0 <= i < |files| ==> DirName(files[i].name) && files[i].name != SELF)
    && (forall i, j :: 0 <= i < j < |files| ==> files[i].name != files[j].name)
  }

  /** The root directory lists itself, then the files in order, and its other slots are blank. */
  predicate Directory(img: seq<byte>, id: MediaId, files: seq<File>)
    requires Sized(img, id) && |files| < 32
  {
    && RootEntry(Slot(img, id, 0), RootDate(img, id))
    && (forall i :: 0 <= i < |files| ==> files[i].chain != [] && Listed(img, id, i + 1, files[i]))
    && (forall k, j :: |files| < k < 32 && 0 <= j < 32 ==> Slot(img, id, k)[j] == 0xFF)
  }

  /** The label and the date of the root directory are the same in both images. */
  predicate SameHeading(img: seq<byte>, jmg: seq<byte>, id: MediaId)
    requires Sized(img, id) && Sized(jmg, id)
  {
    Label(jmg, id) == Label(img, id) && RootDate(jmg, id) == RootDate(img, id)
  }

  function Chains(files: seq<File>): (cc: seq<seq<nat>>)
    ensures |cc| == |files| + 1 && cc[0] == [1]
    ensures forall i :: 0 <= i < |files| ==> cc[i + 1] == files[i].chain
  {
    [[1]] + seq(|files|, i requires 0 <= i < |files| => files[i].chain)
  }

  /** A volume with a root directory in chunk 1 listing these files: the master block describes it,
      the chains of the root and the files partition the used chunks, the free-space field is exact,
      every file's bytes are in its chain, and the directory lists exactly the files. */
  predicate Volume(img: seq<byte>, id: MediaId, files: seq<File>) {
    && Sized(img, id) && |files| < 32
    && Described(img, id)
    && Partition(TableOf(img, id), Chunks(id), Chains(files))
    && FreeSpaceExact(img, id)
    && (forall i :: 0 <= i < |files| ==> Stored(img, id, files[i]))
    && NamesDistinct(files) && Directory(img, id, files)
  }
}
