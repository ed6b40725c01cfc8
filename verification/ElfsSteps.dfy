/** What the steps of adding a file do to a volume: allocating a chunk, filling it, listing the file. */
module ElfsSteps {
  import opened Bytes
  import opened ChunkTable
  import opened Elfs

  /** The free-space field went down by 1024 and nothing else of the master block changed. */
  predicate CountedOff(img: seq<byte>, jmg: seq<byte>, id: MediaId)
    requires Sized(img, id) && Sized(jmg, id)
  {
    && FreeSpace(jmg, id) == (if FreeSpace(img, id) >= 1024 then FreeSpace(img, id) - 1024
                              else FreeSpace(img, id) + 0x1_0000_0000 - 1024)
    && MasterOf(jmg, id) == Splice(MasterOf(img, id), 0x34, LongBytes(FreeSpace(jmg, id)))
  }

  lemma CountedOffSame(img: seq<byte>, img': seq<byte>, jmg: seq<byte>, id: MediaId)
    requires Sized(img, id) && Sized(img', id) && Sized(jmg, id)
    requires MasterOf(img, id) == MasterOf(img', id) && CountedOff(img', jmg, id)
    ensures CountedOff(img, jmg, id)
  {
  }

  lemma SameButItself(img: seq<byte>, id: MediaId)
    requires Sized(img, id)
    ensures SameBut(img, img, id, [])
  {
  }

  /** Chunk `f` has been taken and linked, the free-space field is 1024 less, the rest is the same. */
  ghost predicate Allocated(img: seq<byte>, jmg: seq<byte>, id: MediaId, prev: nat, f: nat)
    requires Sized(img, id) && Sized(jmg, id)
  {
    && prev < Chunks(id) && 1 <= f < Chunks(id)
    && TableOf(jmg, id) == Linked(TableOf(img, id), prev, f)
    && CountedOff(img, jmg, id)
    && SameBut(img, jmg, id, [])
  }

  /** The two bytes of a table entry. */
  lemma EntryBytes(img: seq<byte>, id: MediaId, i: nat)
    requires Sized(img, id) && i < 256 * TableSectors(id)
    ensures 1024 + 2 * i + 1 < |img|
    ensures TableOf(img, id)[i] == Word(img[1024 + 2 * i], img[1024 + 2 * i + 1])
  {
    assert TableOf(img, id)[i] == WordAt(TableBytes(img, id), 2 * i);
  }

  // ------------------------------------------------------------------ storing the content

  /** Part of a file has been stored since `img0`: its chunks so far form a chain of their own beside
      the chains `cc`, the first `k` of them hold their pieces, the free-space field is still exact,
      and nothing but these chunks, the table and the free-space field has changed. */
  ghost predicate Storing(img0: seq<byte>, img: seq<byte>, id: MediaId, cc: seq<seq<nat>>,
                          content: seq<byte>, chain: seq<nat>, k: nat)
    requires Sized(img0, id) && Sized(img, id)
  {
    && Partition(TableOf(img, id), Chunks(id), Grown(cc, chain))
    && FreeSpaceExact(img, id)
    && FreeCount(TableOf(img, id), Chunks(id)) + |chain| == FreeCount(TableOf(img0, id), Chunks(id))
    && SameBut(img0, img, id, chain)
    && MasterOf(img, id) == Splice(MasterOf(img0, id), 0x34, LongBytes(FreeSpace(img, id) % 0x1_0000_0000))
    && Holds(img, id, chain, content, k)
  }

  /** The chains with a new one once it has a chunk. */
  function Grown(cc: seq<seq<nat>>, chain: seq<nat>): seq<seq<nat>> {
    if chain == [] then cc else cc + [chain]
  }

  /** The chunk a new one is linked after; 0 at the start of a file. */
  function Tail(chain: seq<nat>): nat { if chain == [] then 0 else Last(chain) }

  lemma StoringNothing(img: seq<byte>, id: MediaId, cc: seq<seq<nat>>, content: seq<byte>)
    requires Sized(img, id) && Partition(TableOf(img, id), Chunks(id), cc) && FreeSpaceExact(img, id)
    ensures Storing(img, img, id, cc, content, [], 0)
  {
    hide Partition, TableOf, SameBut, MasterOf, FreeSpaceExact, LongBytes;
    SameButItself(img, id);
    LongBytesOf(MasterOf(img, id), 0x34);
    SpliceSelf(MasterOf(img, id), 0x34, 4);
  }

  /** The chains after an allocation at the end of the growing chain. */
  lemma GrownPartition(t: seq<word>, n: nat, cc: seq<seq<nat>>, chain: seq<nat>, f: nat)
    requires Partition(t, n, Grown(cc, chain)) && 1 <= f < n && t[f] == FREE
    ensures Tail(chain) < n && (Tail(chain) != 0 ==> t[Tail(chain)] != FREE)
    ensures Partition(Linked(t, Tail(chain), f), n, Grown(cc, chain + [f]))
    ensures f !in chain
  {
    if chain == [] {
      NewChain(t, n, cc, f);
      assert [] + [f] == [f];
    } else {
      var g := Grown(cc, chain);
      assert IsChain(t, n, g[|cc|]);
      ChainKept(t, n, chain, 0, f);
      LongerChain(t, n, g, |cc|, f);
      assert g[|cc| := chain + [f]] == Grown(cc, chain + [f]);
    }
  }

  /** A chunk allocated for the next piece. */
  lemma AllocationStep(img0: seq<byte>, img: seq<byte>, jmg: seq<byte>, id: MediaId, cc: seq<seq<nat>>,
                       content: seq<byte>, chain: seq<nat>, f: nat)
    requires Sized(img0, id) && Sized(img, id) && Sized(jmg, id)
    requires Storing(img0, img, id, cc, content, chain, |chain|)
    requires Allocated(img, jmg, id, Tail(chain), f) && TableOf(img, id)[f] == FREE
    ensures Storing(img0, jmg, id, cc, content, chain + [f], |chain|)
  {
    hide Partition, TableOf, SameBut, MasterOf, Holds, FreeCount, Linked, LongBytes, FreeSpace, Grown;
    var t, n := TableOf(img, id), Chunks(id);
    GrownPartition(t, n, cc, chain, f);
    AllocationUsesOne(t, n, Tail(chain), f);
    SameButTrans(img0, img, jmg, id, chain, [], chain + [f]);
    HoldsKept(img, jmg, id, chain, content, |chain|, []);
    HoldsPrefix(jmg, id, chain, content, f);
    FreeCounted(t, n, f);
    SpliceTwice(MasterOf(img0, id), 0x34, LongBytes(FreeSpace(img, id) % 0x1_0000_0000),
                LongBytes(FreeSpace(jmg, id) % 0x1_0000_0000));
  }

  lemma FreeCounted(t: seq<word>, n: nat, f: nat)
    requires n <= |t| && 1 <= f < n && t[f] == FREE
    ensures 1 <= FreeCount(t, n) < n
  {
    FreeFromBound(t, n, 1);
  }

  lemma HoldsPrefix(img: seq<byte>, id: MediaId, chain: seq<nat>, content: seq<byte>, f: nat)
    requires Sized(img, id) && Holds(img, id, chain, content, |chain|)
    ensures Holds(img, id, chain + [f], content, |chain|)
  {
  }

  /** The next piece written to the newest chunk. */
  lemma PieceStep(img0: seq<byte>, img: seq<byte>, id: MediaId, cc: seq<seq<nat>>,
                  content: seq<byte>, chain: seq<nat>)
    requires Sized(img0, id) && Sized(img, id) && chain != []
    requires Storing(img0, img, id, cc, content, chain, |chain| - 1)
    ensures 1 <= Last(chain) < Chunks(id) && ChunkOffset(id, Last(chain)) + 1024 <= |img|
    ensures Storing(img0, Splice(img, ChunkOffset(id, Last(chain)), Piece(content, |chain| - 1)), id, cc,
                    content, chain, |chain|)
  {
    hide TableOf, MasterOf, SameBut, Covered, AllDisjoint, FreeCount, LongBytes, Splice, ChunkAt, Piece;
    var k := |chain| - 1;
    var f, n, t := chain[k], Chunks(id), TableOf(img, id);
    assert IsChain(t, n, Grown(cc, chain)[|cc|]);
    ChunkWrite(img, id, f, 0, Piece(content, k));
    var jmg := Splice(img, ChunkOffset(id, f), Piece(content, k));
    SameButTrans(img0, img, jmg, id, chain, [f], chain);
    PieceHeld(img, jmg, id, t, chain, content);
  }

  lemma PieceHeld(img: seq<byte>, jmg: seq<byte>, id: MediaId, t: seq<word>, chain: seq<nat>, content: seq<byte>)
    requires Sized(img, id) && Sized(jmg, id) && IsChain(t, Chunks(id), chain)
    requires Holds(img, id, chain, content, |chain| - 1) && SameBut(img, jmg, id, [Last(chain)])
    requires ChunkAt(jmg, id, Last(chain)) == Splice(ChunkAt(img, id, Last(chain)), 0, Piece(content, |chain| - 1))
    ensures Holds(jmg, id, chain, content, |chain|)
  {
    hide ChunkAt, Piece;
    var k := |chain| - 1;
    forall i | 0 <= i < |chain|
      ensures Piece(content, i) <= ChunkAt(jmg, id, chain[i])
    {
      if i < k {
        NoCycle(t, Chunks(id), chain, i, k);
      }
    }
  }

  // ------------------------------------------------------------------ listing the file

  /** The file is stored but the directory does not list it yet. */
  ghost predicate Unlisted(img: seq<byte>, id: MediaId, files: seq<File>, f: File)
    requires Sized(img, id)
  {
    && |files| < 31 && Described(img, id) && FreeSpaceExact(img, id)
    && Partition(TableOf(img, id), Chunks(id), Chains(files + [f]))
    && (forall i :: 0 <= i < |files| ==> Stored(img, id, files[i]))
    && Stored(img, id, f)
    && NamesDistinct(files) && Directory(img, id, files)
  }

  /** Updating the free-space field or the boot pointer keeps the description of the volume. */
  lemma DescribedKept(img: seq<byte>, jmg: seq<byte>, id: MediaId, off: nat, bs: seq<byte>)
    requires Sized(img, id) && Sized(jmg, id) && Described(img, id)
    requires (off == 0x34 && |bs| == 4) || (off == 0x1A && |bs| == 2)
    requires MasterOf(jmg, id) == Splice(MasterOf(img, id), off, bs)
    ensures Described(jmg, id)
    ensures off == 0x1A ==> FreeSpace(jmg, id) == FreeSpace(img, id)
    ensures off == 0x34 ==> BootPointer(jmg, id) == BootPointer(img, id)
    ensures off == 0x1A ==> BootPointer(jmg, id) == Word(bs[0], bs[1])
    ensures Label(jmg, id) == Label(img, id)
  {
  }

  lemma DirectoryKept(img: seq<byte>, jmg: seq<byte>, id: MediaId, files: seq<File>)
    requires Sized(img, id) && Sized(jmg, id) && |files| < 32 && Directory(img, id, files)
    requires ChunkAt(jmg, id, 1) == ChunkAt(img, id, 1)
    ensures Directory(jmg, id, files)
  {
    assert forall k :: 0 <= k < 32 ==> Slot(jmg, id, k) == Slot(img, id, k);
  }

  lemma DateKept(img: seq<byte>, jmg: seq<byte>, id: MediaId)
    requires Sized(img, id) && Sized(jmg, id) && ChunkAt(jmg, id, 1) == ChunkAt(img, id, 1)
    ensures RootDate(jmg, id) == RootDate(img, id)
  {
  }

  /** No chunk of a later chain is in an earlier one. */
  lemma NewChainApart(t: seq<word>, n: nat, files: seq<File>, f: File)
    requires Partition(t, n, Chains(files + [f]))
    ensures 1 !in f.chain
    ensures forall i :: 0 <= i < |files| ==> Disjoint(files[i].chain, f.chain) && Disjoint(files[i].chain, [1])
  {
    var cc := Chains(files + [f]);
    assert cc[|files| + 1] == f.chain;
    assert Disjoint(cc[0], cc[|files| + 1]) && 1 in cc[0];
    forall i | 0 <= i < |files|
      ensures Disjoint(files[i].chain, f.chain) && Disjoint(files[i].chain, [1])
    {
      assert (files + [f])[i] == files[i] && cc[i + 1] == files[i].chain;
      assert Disjoint(cc[i + 1], cc[|files| + 1]) && Disjoint(cc[i + 1], cc[0]);
    }
  }

  /** A completely stored file leaves the volume as it was but for the file's chunks. */
  lemma StoredUnlisted(img0: seq<byte>, img: seq<byte>, id: MediaId, files: seq<File>, f: File)
    requires Sized(img0, id) && Sized(img, id)
    requires Volume(img0, id, files) && |files| < 31
    requires f.chain != [] && |f.chain| == Blocks(|f.content|)
    requires Storing(img0, img, id, Chains(files), f.content, f.chain, |f.chain|)
    ensures Unlisted(img, id, files, f) && BootPointer(img, id) == BootPointer(img0, id)
    ensures BootSector(img, id) == BootSector(img0, id) && SameHeading(img0, img, id)
  {
    hide Partition, FreeSpaceExact, FreeSpace, LongBytes, Described, BootPointer, Directory, NamesDistinct;
    assert Chains(files) + [f.chain] == Chains(files + [f]);
    NewChainApart(TableOf(img, id), Chunks(id), files, f);
    DescribedKept(img0, img, id, 0x34, LongBytes(FreeSpace(img, id) % 0x1_0000_0000));
    ChunkInside(id, 1);
    DirectoryKept(img0, img, id, files);
    DateKept(img0, img, id);
    forall i | 0 <= i < |files|
      ensures Stored(img, id, files[i])
    {
      HoldsKept(img0, img, id, files[i].chain, files[i].content, |files[i].chain|, f.chain);
    }
  }

  /** Writing the boot pointer leaves everything else. */
  lemma PointerStep(img: seq<byte>, id: MediaId, files: seq<File>, f: File, w: word)
    requires Sized(img, id) && Unlisted(img, id, files, f)
    ensures var jmg := Splice(img, 0x21A, WordBytes(w));
            && Unlisted(jmg, id, files, f) && BootPointer(jmg, id) == w && BootSector(jmg, id) == BootSector(img, id)
            && TableOf(jmg, id) == TableOf(img, id) && SameHeading(img, jmg, id)
  {
    hide Partition, FreeSpace, LongBytes, Described, BootPointer, Directory, NamesDistinct, MasterOf;
    var jmg := Splice(img, 0x21A, WordBytes(w));
    MasterWrite(img, id, 0x1A, WordBytes(w));
    DescribedKept(img, jmg, id, 0x1A, WordBytes(w));
    DirectoryKept(img, jmg, id, files);
    DateKept(img, jmg, id);
    forall i | 0 <= i < |files|
      ensures Stored(jmg, id, files[i])
    {
      HoldsKept(img, jmg, id, files[i].chain, files[i].content, |files[i].chain|, []);
    }
    HoldsKept(img, jmg, id, f.chain, f.content, |f.chain|, []);
  }

  /** A directory entry: attributes, name, padding, date, size and first chunk. */
  function EntryOf(attr: word, name: seq<byte>, date: seq<byte>, size: nat, start: word): (e: seq<byte>)
    requires |name| == 14 && |date| == 5 && size < 0x1_0000_0000
    ensures |e| == 32
  {
    [Hi(attr), Lo(attr)] + name + [0, 0, 0, 0, 0] + date + LongBytes(size) + WordBytes(start)
  }

  lemma EntryFields(attr: word, name: seq<byte>, date: seq<byte>, size: nat, start: word)
    requires |name| == 14 && |date| == 5 && size < 0x1_0000_0000
    ensures var e := EntryOf(attr, name, date, size, start);
            EntryIs(e, attr, name, date, size, start)
  {
    hide LongBytes;
    var e := EntryOf(attr, name, date, size, start);
    assert e[26..30] == LongBytes(size);
    LongAtBytes(size);
    assert LongAt(e, 0x1A) == LongAt(e[26..30], 0);
  }

  /** Writing one slot of the directory. */
  lemma SlotWrite(img: seq<byte>, id: MediaId, k: nat, e: seq<byte>)
    requires Sized(img, id) && k < 32 && |e| == 32
    ensures ChunkOffset(id, 1) + 32 * k + 32 <= |img|
    ensures var jmg := Splice(img, ChunkOffset(id, 1) + 32 * k, e);
            && Slot(jmg, id, k) == e
            && (forall l :: 0 <= l < 32 && l != k ==> Slot(jmg, id, l) == Slot(img, id, l))
  {
    hide MasterOf, TableOf, SameBut, ChunkAt, Splice;
    ChunkWrite(img, id, 1, 32 * k, e);
    SlotsOfSplice(ChunkAt(img, id, 1), k, e);
  }

  lemma SlotsOfSplice(c: seq<byte>, k: nat, e: seq<byte>)
    requires |c| == 1024 && k < 32 && |e| == 32
    ensures Splice(c, 32 * k, e)[32 * k..32 * k + 32] == e
    ensures forall l :: 0 <= l < 32 && l != k ==>
              Splice(c, 32 * k, e)[32 * l..32 * l + 32] == c[32 * l..32 * l + 32]
  {
    hide Splice;
    var d := Splice(c, 32 * k, e);
    forall l | 0 <= l < 32 && l != k
      ensures d[32 * l..32 * l + 32] == c[32 * l..32 * l + 32]
    {
      SpliceElsewhere(c, 32 * k, e, 32 * l, 32 * l + 32);
    }
  }

  /** Listing the stored file completes the volume. */
  lemma ListingStep(img: seq<byte>, id: MediaId, files: seq<File>, f: File, e: seq<byte>)
    requires Sized(img, id) && Unlisted(img, id, files, f) && |e| == 32
    requires DirName(f.name) && f.name != SELF && forall i :: 0 <= i < |files| ==> files[i].name != f.name
    requires f.chain != [] && EntryIs(e, f.attr, f.name, f.date, |f.content|, f.chain[0])
    ensures ChunkOffset(id, 1) + 32 * (|files| + 1) + 32 <= |img|
    ensures var jmg := Splice(img, ChunkOffset(id, 1) + 32 * (|files| + 1), e);
            && Volume(jmg, id, files + [f]) && BootPointer(jmg, id) == BootPointer(img, id)
            && BootSector(jmg, id) == BootSector(img, id) && TableOf(jmg, id) == TableOf(img, id)
            && SameHeading(img, jmg, id)
  {
    hide Partition, MasterOf, ChunkAt, TableOf, BootSector, Directory, Splice, Stored, NamesDistinct, Described,
         FreeSpaceExact, BootPointer, DirName;
    var k := |files| + 1;
    ChunkWrite(img, id, 1, 32 * k, e);
    var jmg := Splice(img, ChunkOffset(id, 1) + 32 * k, e);
    VolumeFactsSame(img, jmg, id);
    StillStored(img, jmg, id, files, f);
    OneMoreName(files, f);
    SlotWrite(img, id, k, e);
    NewListing(img, jmg, id, files, f, e);
  }

  /** A write in the root directory leaves all files stored. */
  lemma StillStored(img: seq<byte>, jmg: seq<byte>, id: MediaId, files: seq<File>, f: File)
    requires Sized(img, id) && Sized(jmg, id) && SameBut(img, jmg, id, [1]) && TableOf(jmg, id) == TableOf(img, id)
    requires Partition(TableOf(img, id), Chunks(id), Chains(files + [f]))
    requires (forall i :: 0 <= i < |files| ==> Stored(img, id, files[i])) && Stored(img, id, f)
    ensures forall i :: 0 <= i <= |files| ==> Stored(jmg, id, (files + [f])[i])
  {
    hide Partition, TableOf, SameBut, Holds;
    NewChainApart(TableOf(img, id), Chunks(id), files, f);
    forall i | 0 <= i <= |files|
      ensures Stored(jmg, id, (files + [f])[i])
    {
      var g := (files + [f])[i];
      HoldsKept(img, jmg, id, g.chain, g.content, |g.chain|, [1]);
    }
  }

  lemma OneMoreName(files: seq<File>, f: File)
    requires NamesDistinct(files) && DirName(f.name) && f.name != SELF
    requires forall i :: 0 <= i < |files| ==> files[i].name != f.name
    ensures NamesDistinct(files + [f])
  {
    hide DirName;
  }

  lemma NewListing(img: seq<byte>, jmg: seq<byte>, id: MediaId, files: seq<File>, f: File, e: seq<byte>)
    requires Sized(img, id) && Sized(jmg, id) && |files| < 31 && Directory(img, id, files) && |e| == 32
    requires f.chain != [] && EntryIs(e, f.attr, f.name, f.date, |f.content|, f.chain[0])
    requires Slot(jmg, id, |files| + 1) == e
    requires forall l :: 0 <= l < 32 && l != |files| + 1 ==> Slot(jmg, id, l) == Slot(img, id, l)
    ensures Directory(jmg, id, files + [f])
  {
    hide Slot;
    var gs := files + [f];
    forall i | 0 <= i < |gs|
      ensures gs[i].chain != [] && Listed(jmg, id, i + 1, gs[i])
    {
      if i < |files| {
        assert Listed(img, id, i + 1, files[i]);
      }
    }
  }

  // ------------------------------------------------------------------ a fresh volume

  /** The chunk table the writer starts with: all usable chunks free, all other entries invalid. */
  function FreshTable(id: MediaId): (t: seq<word>)
    ensures |t| == 256 * TableSectors(id)
  {
    seq(256 * TableSectors(id), i => if 1 <= i < Chunks(id) then FREE else END)
  }

  lemma FreshEntries(id: MediaId)
    ensures forall c :: 0 <= c < 256 * TableSectors(id) ==>
              FreshTable(id)[c] == if 1 <= c < Chunks(id) then 0 else 0xFFFF
  {
  }

  lemma {:induction false} AllFree(t: seq<word>, n: nat, i: nat)
    requires i <= n <= |t| && forall c :: i <= c < n ==> t[c] == FREE
    ensures FreeFrom(t, n, i) == n - i
    decreases n - i
  {
    if i < n {
      AllFree(t, n, i + 1);
    }
  }

  lemma FreshIsEmpty(id: MediaId)
    ensures Partition(FreshTable(id), Chunks(id), [])
    ensures FreeCount(FreshTable(id), Chunks(id)) == Chunks(id) - 1
    ensures FirstFree(FreshTable(id), Chunks(id), 1) == 1
  {
    AllFree(FreshTable(id), Chunks(id), 1);
  }

  /** The highest chunk number byte by byte, and the bytes that are free on an empty volume. */
  lemma MasterNumbers(id: MediaId)
    ensures 1 < Chunks(id) < 0x1_0000 && TableSectors(id) < 256 && SectorsPerTrack(id) < 256
    ensures Word((Chunks(id) - 1) % 256, Chunks(id) / 256 % 256) == Chunks(id) - 1
    ensures (Sectors(id) - TableSectors(id) - 2) * 512 == 1024 * Chunks(id)
  {
  }

  /** The three written stretches of the master block. */
  function MasterHead(id: MediaId, serial: word): (bs: seq<byte>)
    ensures |bs| == 12
  {
    [0x45, 0x4C, 0x46, 0x53, 0, 0, 0, 0] + WordBytes(id) + WordBytes(serial)
  }

  function MasterSizes(id: MediaId): (bs: seq<byte>)
    ensures |bs| == 12
  {
    WordBytes(10) + WordBytes(Chunks(id) - 1) + WordBytes(SectorsPerTrack(id) / 2)
    + WordBytes(TableSectors(id)) + WordBytes(2) + WordBytes(0)
  }

  function MasterTail(id: MediaId, title: seq<byte>): (bs: seq<byte>)
    requires |title| == 16
    ensures |bs| == 28
  {
    title + LongBytes(1024 * Chunks(id)) + LongBytes(1024 * Chunks(id)) + LongBytes(2 + TableSectors(id))
  }

  lemma MasterWritten(m: seq<byte>, img: seq<byte>, id: MediaId, serial: word, title: seq<byte>)
    requires Sized(img, id) && |m| == 512 && |title| == 16
    requires MasterOf(img, id)
          == Splice(Splice(Splice(m, 0, MasterHead(id, serial)), 0x10, MasterSizes(id)), 0x20, MasterTail(id, title))
    ensures Described(img, id) && FreeSpace(img, id) == 1024 * Chunks(id) && BootPointer(img, id) == 0
    ensures Label(img, id) == [0, 0, 0, 0] + WordBytes(serial) + title
  {
    hide Lo, Hi, LongBytes;
    var r := MasterOf(img, id);
    assert r[0..12] == MasterHead(id, serial);
    assert r[0x10..0x1C] == MasterSizes(id);
    assert r[0x20..0x3C] == MasterTail(id, title);
    HeadFields(r, id, serial);
    SizeFields(r, id);
    TailFields(r, id, title);
    LabelFields(r, id, serial, title);
  }

  lemma LabelFields(r: seq<byte>, id: MediaId, serial: word, title: seq<byte>)
    requires |r| == 512 && |title| == 16
    requires r[0..12] == MasterHead(id, serial) && r[0x20..0x3C] == MasterTail(id, title)
    ensures r[0x04..0x08] == [0, 0, 0, 0] && r[0x0A..0x0C] == WordBytes(serial) && r[0x20..0x30] == title
  {
    hide LongBytes, WordBytes;
    assert r[0x04..0x08] == r[0..12][4..8] && r[0x0A..0x0C] == r[0..12][10..12];
    assert r[0x20..0x30] == r[0x20..0x3C][0..16];
  }

  lemma HeadFields(r: seq<byte>, id: MediaId, serial: word)
    requires |r| == 512 && r[0..12] == MasterHead(id, serial)
    ensures r[0] == 0x45 && r[1] == 0x4C && r[2] == 0x46 && r[3] == 0x53 && WordAt(r, 8) == id
  {
    hide Lo, Hi;
    assert forall i :: 0 <= i < 12 ==> r[i] == r[0..12][i];
    WordField(r, 8, id);
  }

  lemma SizeFields(r: seq<byte>, id: MediaId)
    requires |r| == 512 && r[0x10..0x1C] == MasterSizes(id)
    ensures WordAt(r, 0x10) == 10 && WordAt(r, 0x12) == Chunks(id) - 1 && WordAt(r, 0x14) == SectorsPerTrack(id) / 2
    ensures WordAt(r, 0x16) == TableSectors(id) && WordAt(r, 0x18) == 2 && WordAt(r, 0x1A) == 0
  {
    hide Lo, Hi;
    assert forall i :: 0x10 <= i < 0x1C ==> r[i] == r[0x10..0x1C][i - 0x10];
    WordField(r, 0x10, 10);
    WordField(r, 0x12, Chunks(id) - 1);
    WordField(r, 0x14, SectorsPerTrack(id) / 2);
    WordField(r, 0x16, TableSectors(id));
    WordField(r, 0x18, 2);
    WordField(r, 0x1A, 0);
  }

  lemma TailFields(r: seq<byte>, id: MediaId, title: seq<byte>)
    requires |r| == 512 && |title| == 16 && r[0x20..0x3C] == MasterTail(id, title)
    ensures LongAt(r, 0x30) == 1024 * Chunks(id) && LongAt(r, 0x34) == 1024 * Chunks(id)
    ensures LongAt(r, 0x38) == 2 + TableSectors(id)
  {
    hide LongBytes;
    var t := MasterTail(id, title);
    assert r[0x30..0x34] == t[16..20] == LongBytes(1024 * Chunks(id));
    assert r[0x34..0x38] == t[20..24] == LongBytes(1024 * Chunks(id));
    assert r[0x38..0x3C] == t[24..28] == LongBytes(2 + TableSectors(id));
    LongField(r, 0x30, 1024 * Chunks(id));
    LongField(r, 0x34, 1024 * Chunks(id));
    LongField(r, 0x38, 2 + TableSectors(id));
  }

  /** A root directory chunk, filled with blanks and given its entry for itself, completes an empty volume. */
  lemma RootStep(img: seq<byte>, id: MediaId, e: seq<byte>)
    requires Sized(img, id) && Described(img, id) && FreeSpaceExact(img, id)
    requires Partition(TableOf(img, id), Chunks(id), [[1]])
    requires ChunkAt(img, id, 1) == seq(1024, _ => 0xFF) && |e| == 32 && RootEntry(e, e[21..26])
    ensures ChunkOffset(id, 1) + 32 <= |img|
    ensures Volume(Splice(img, ChunkOffset(id, 1), e), id, [])
    ensures BootPointer(Splice(img, ChunkOffset(id, 1), e), id) == BootPointer(img, id)
    ensures TableOf(Splice(img, ChunkOffset(id, 1), e), id) == TableOf(img, id)
    ensures Label(Splice(img, ChunkOffset(id, 1), e), id) == Label(img, id)
    ensures RootDate(Splice(img, ChunkOffset(id, 1), e), id) == e[21..26]
  {
    hide Partition, MasterOf, ChunkAt, TableOf, Splice, Described, FreeSpaceExact, BootPointer;
    var jmg := Splice(img, ChunkOffset(id, 1), e);
    ChunkWrite(img, id, 1, 0, e);
    VolumeFactsSame(img, jmg, id);
    SlotWrite(img, id, 0, e);
    assert Chains([]) == [[1]];
    forall k, j | 0 < k < 32 && 0 <= j < 32
      ensures Slot(jmg, id, k)[j] == 0xFF
    {
      assert Slot(img, id, k)[j] == ChunkAt(img, id, 1)[32 * k + j];
    }
  }

  lemma DescribedSame(img: seq<byte>, jmg: seq<byte>, id: MediaId)
    requires Sized(img, id) && Sized(jmg, id) && MasterOf(jmg, id) == MasterOf(img, id) && Described(img, id)
    ensures Described(jmg, id) && FreeSpace(jmg, id) == FreeSpace(img, id)
    ensures BootPointer(jmg, id) == BootPointer(img, id) && Label(jmg, id) == Label(img, id)
  {
  }

  lemma VolumeFactsSame(img: seq<byte>, jmg: seq<byte>, id: MediaId)
    requires Sized(img, id) && Sized(jmg, id)
    requires MasterOf(jmg, id) == MasterOf(img, id) && TableOf(jmg, id) == TableOf(img, id)
    requires Described(img, id) && FreeSpaceExact(img, id)
    ensures Described(jmg, id) && FreeSpaceExact(jmg, id) && BootPointer(jmg, id) == BootPointer(img, id)
    ensures Label(jmg, id) == Label(img, id)
  {
  }

  lemma FreshExact(img: seq<byte>, id: MediaId)
    requires Sized(img, id) && TableOf(img, id) == FreshTable(id) && FreeSpace(img, id) == 1024 * Chunks(id)
    ensures FreeSpaceExact(img, id)
  {
    FreshIsEmpty(id);
  }

  /** The root directory's chunk, allocated on a fresh table. */
  lemma RootAllocated(img: seq<byte>, jmg: seq<byte>, id: MediaId)
    requires Sized(img, id) && Sized(jmg, id) && TableOf(img, id) == FreshTable(id)
    requires Described(img, id) && FreeSpaceExact(img, id) && Allocated(img, jmg, id, 0, 1)
    ensures Described(jmg, id) && FreeSpaceExact(jmg, id) && BootPointer(jmg, id) == BootPointer(img, id)
    ensures Label(jmg, id) == Label(img, id)
    ensures Partition(TableOf(jmg, id), Chunks(id), [[1]])
    ensures FreeCount(TableOf(jmg, id), Chunks(id)) == Chunks(id) - 2
  {
    hide Partition, Described, FreeSpaceExact, BootPointer, MasterOf, TableOf, FreeCount;
    FreshIsEmpty(id);
    StoringNothing(img, id, [], []);
    AllocationStep(img, img, jmg, id, [], [], [], 1);
    assert [] + [1] == [1];
    StoringGives(img, jmg, id, [[1]]);
    DescribedKept(img, jmg, id, 0x34, LongBytes(FreeSpace(jmg, id) % 0x1_0000_0000));
  }

  lemma StoringGives(img: seq<byte>, jmg: seq<byte>, id: MediaId, cc: seq<seq<nat>>)
    requires Sized(img, id) && Sized(jmg, id) && Storing(img, jmg, id, [], [], [1], 0) && cc == [[1]]
    ensures Partition(TableOf(jmg, id), Chunks(id), cc) && FreeSpaceExact(jmg, id)
    ensures MasterOf(jmg, id) == Splice(MasterOf(img, id), 0x34, LongBytes(FreeSpace(jmg, id) % 0x1_0000_0000))
  {
    assert [] + [[1]] == cc;
  }

  lemma StoringFacts(img0: seq<byte>, img: seq<byte>, id: MediaId, cc: seq<seq<nat>>, content: seq<byte>,
                     chain: seq<nat>)
    requires Sized(img0, id) && Sized(img, id) && Storing(img0, img, id, cc, content, chain, |chain|)
    ensures FreeCount(TableOf(img, id), Chunks(id)) + |chain| == FreeCount(TableOf(img0, id), Chunks(id))
    ensures FirstFree(TableOf(img, id), Chunks(id), 1) == 0 ==> FreeCount(TableOf(img, id), Chunks(id)) == 0
    ensures forall f :: f == FirstFree(TableOf(img, id), Chunks(id), 1) && f != 0 ==> TableOf(img, id)[f] == FREE
  {
    if FirstFree(TableOf(img, id), Chunks(id), 1) == 0 {
      NoneFree(TableOf(img, id), Chunks(id), 1);
    }
  }

  lemma StoringTakes(img0: seq<byte>, img: seq<byte>, id: MediaId, cc: seq<seq<nat>>, content: seq<byte>,
                     chain: seq<nat>)
    requires Sized(img0, id) && Sized(img, id) && Storing(img0, img, id, cc, content, chain, |chain|)
    ensures FreeCount(TableOf(img, id), Chunks(id)) + |chain| == FreeCount(TableOf(img0, id), Chunks(id))
  {
  }

  lemma VolumeGives(img: seq<byte>, id: MediaId, files: seq<File>)
    requires Volume(img, id, files)
    ensures Sized(img, id) && |files| < 32
    ensures Partition(TableOf(img, id), Chunks(id), Chains(files)) && FreeSpaceExact(img, id)
  {
  }

  lemma UnlistedGives(img: seq<byte>, id: MediaId, files: seq<File>, f: File)
    requires Sized(img, id) && Unlisted(img, id, files, f)
    ensures |files| < 31 && Directory(img, id, files)
    ensures TableOf(img, id)[1] == END
  {
    RootChainEnds(img, id, files, f);
  }

  lemma RootChainEnds(img: seq<byte>, id: MediaId, files: seq<File>, f: File)
    requires Sized(img, id) && Unlisted(img, id, files, f)
    ensures TableOf(img, id)[1] == END
  {
    assert IsChain(TableOf(img, id), Chunks(id), Chains(files + [f])[0]);
  }

  lemma BlankIsNoName(img: seq<byte>, id: MediaId, files: seq<File>, k: nat)
    requires Sized(img, id) && |files| < 31 && Directory(img, id, files) && k < 32
    ensures k > |files| ==> !DirName(SlotName(img, id, k))
  {
    hide Slot;
    if k > |files| {
      assert SlotName(img, id, k)[10] == Slot(img, id, k)[12];
    }
  }

  /** Where a slot's name is in the image. */
  lemma SlotNameBytes(img: seq<byte>, id: MediaId, k: nat)
    requires Sized(img, id) && k < 32
    ensures ChunkOffset(id, 1) + 32 * k + 16 <= |img|
    ensures img[ChunkOffset(id, 1) + 32 * k + 2..ChunkOffset(id, 1) + 32 * k + 16] == SlotName(img, id, k)
  {
    var o := ChunkOffset(id, 1);
    ChunkInside(id, 1);
    SliceOfSlice(img, o, o + 1024, 32 * k, 32 * k + 32);
    SliceOfSlice(img, o + 32 * k, o + 32 * k + 32, 2, 16);
  }

  /** The slot names of the directory are its own, the files', and blanks. */
  lemma NameTaken(img: seq<byte>, id: MediaId, files: seq<File>, name: seq<byte>)
    requires Sized(img, id) && |files| < 31 && Directory(img, id, files) && DirName(name)
    ensures (exists k :: 0 <= k < 32 && SlotName(img, id, k) == name)
       <==> (name == SELF || exists i :: 0 <= i < |files| && files[i].name == name)
  {
    hide Slot;
    if k :| 0 <= k < 32 && SlotName(img, id, k) == name {
      BlankIsNoName(img, id, files, k);
      if 0 < k <= |files| {
        assert Listed(img, id, k - 1 + 1, files[k - 1]);
      }
    }
    if name == SELF {
      assert SlotName(img, id, 0) == name;
    }
    forall i | 0 <= i < |files| && files[i].name == name
      ensures SlotName(img, id, i + 1) == name
    {
      assert Listed(img, id, i + 1, files[i]);
    }
  }

  /** What fits on the disk has a size the directory entry can hold. */
  lemma ContentFits(img: seq<byte>, id: MediaId, content: seq<byte>)
    requires Sized(img, id) && FreeCount(TableOf(img, id), Chunks(id)) >= Blocks(|content|)
    ensures |content| < 0x1_0000_0000
  {
    FreeFromBound(TableOf(img, id), Chunks(id), 1);
  }

  // ------------------------------------------------------------------ a whole list of files

  /** The files are the first additions, and the boot pointer names the system file if it is one. */
  predicate Follows(img: seq<byte>, id: MediaId, files: seq<File>, adds: seq<Addition>)
    requires Sized(img, id)
  {
    && |files| <= |adds|
    && (forall i :: 0 <= i < |files| ==>
          files[i].name == adds[i].name && files[i].attr == adds[i].attr && files[i].date == adds[i].date
          && files[i].content == adds[i].content && files[i].chain != []
          && (adds[i].isDosSys ==> BootPointer(img, id) == files[i].chain[0]))
    && ((forall i :: 0 <= i < |files| ==> !adds[i].isDosSys) ==> BootPointer(img, id) == 0)
  }

  lemma FollowsNothing(img: seq<byte>, id: MediaId, adds: seq<Addition>)
    requires Sized(img, id) && BootPointer(img, id) == 0
    ensures Follows(img, id, [], adds)
  {
  }

  lemma FollowsOneMore(img: seq<byte>, jmg: seq<byte>, id: MediaId, files: seq<File>, adds: seq<Addition>, f: File)
    requires Sized(img, id) && Sized(jmg, id) && Follows(img, id, files, adds) && |files| < |adds|
    requires forall a <- adds :: WellNamed(a)
    requires NamesDistinct(files + [f])
    requires var a := adds[|files|]; f == File(a.name, a.attr, a.date, a.content, f.chain) && f.chain != []
    requires BootPointer(jmg, id) == if adds[|files|].isDosSys then f.chain[0] else BootPointer(img, id)
    ensures Follows(jmg, id, files + [f], adds)
  {
    hide BootPointer;
    var gs := files + [f];
    forall i | 0 <= i < |gs|
      ensures gs[i].name == adds[i].name && gs[i].attr == adds[i].attr && gs[i].date == adds[i].date
      ensures gs[i].content == adds[i].content && gs[i].chain != []
      ensures adds[i].isDosSys ==> BootPointer(jmg, id) == gs[i].chain[0]
    {
      assert adds[i] in adds && adds[|files|] in adds;
      if i < |files| {
        assert gs[i].name != gs[|files|].name;
      }
    }
  }

  /** The chunks the first `k` additions need. */
  function BlocksOf(adds: seq<Addition>, k: nat): nat
    requires k <= |adds|
  {
    if k == 0 then 0 else BlocksOf(adds, k - 1) + Blocks(|adds[k - 1].content|)
  }

  /** The name of an addition is that of the directory itself or of an earlier addition. */
  predicate Taken(adds: seq<Addition>, i: nat)
    requires i < |adds|
  {
    adds[i].name == SELF || exists j :: 0 <= j < i && adds[j].name == adds[i].name
  }

  /** All additions fit an empty volume, and no name is used twice. */
  predicate Addable(adds: seq<Addition>, id: MediaId) {
    && (forall i :: 0 <= i < |adds| ==> !Taken(adds, i))
    && BlocksOf(adds, |adds|) <= Chunks(id) - 2
  }

  lemma BlocksOfNone(adds: seq<Addition>)
    ensures BlocksOf(adds, 0) == 0
  {
  }

  lemma {:induction false} MoreBlocks(adds: seq<Addition>, i: nat, k: nat)
    requires i <= k <= |adds|
    ensures BlocksOf(adds, i) <= BlocksOf(adds, k)
    decreases k
  {
    if i < k {
      MoreBlocks(adds, i, k - 1);
    }
  }

  /** Why an addition can or cannot be made after the ones before it. */
  lemma AdditionStep(img: seq<byte>, id: MediaId, files: seq<File>, adds: seq<Addition>, i: nat, free: nat)
    requires Sized(img, id) && Follows(img, id, files, adds) && |files| == i < |adds|
    requires free + BlocksOf(adds, i) == Chunks(id) - 2
    ensures BlocksOf(adds, i + 1) == BlocksOf(adds, i) + Blocks(|adds[i].content|)
    ensures free < Blocks(|adds[i].content|) ==> !Addable(adds, id)
    ensures (exists j :: 0 <= j < i && files[j].name == adds[i].name) || adds[i].name == SELF <==> Taken(adds, i)
    ensures Taken(adds, i) ==> !Addable(adds, id)
  {
    hide BootPointer;
    MoreBlocks(adds, i + 1, |adds|);
    if j :| 0 <= j < i && adds[j].name == adds[i].name {
      assert files[j].name == adds[j].name;
    }
  }

  lemma VolumeNames(img: seq<byte>, id: MediaId, files: seq<File>)
    requires Volume(img, id, files)
    ensures Sized(img, id) && NamesDistinct(files)
  {
  }

  /** The field for the free space is 1024 times one more than what DOS counts as free. */
  lemma FreeSpaceIsCounted(img: seq<byte>, id: MediaId, files: seq<File>)
    requires Volume(img, id, files)
    ensures FreeSpace(img, id) == 1024 * (FreeFrom(TableOf(img, id), Chunks(id), 0) + 1)
  {
  }

  /** DOS takes a slot for free exactly when bit 7 of its first byte is set. If no file has the top bit
      of its attributes set, DOS sees the directory's own entry and the files', and no others. */
  lemma SlotsInUse(img: seq<byte>, id: MediaId, files: seq<File>, k: nat)
    requires Volume(img, id, files) && k < 32
    requires forall f <- files :: f.attr < 0x8000
    ensures Slot(img, id, k)[0] < 0x80 <==> k <= |files|
  {
    hide Slot, Partition, Described, Stored, FreeSpaceExact;
    if 1 <= k <= |files| {
      assert files[k - 1] in files;
      assert Listed(img, id, k - 1 + 1, files[k - 1]);
    } else if k > |files| {
      assert Slot(img, id, k)[0] == 0xFF;
    }
  }

  /** On every volume the writer and DOS would allocate the same chunk next. */
  lemma SameNextChunk(img: seq<byte>, id: MediaId, files: seq<File>)
    requires Volume(img, id, files)
    ensures var f := FirstFree(TableOf(img, id), Chunks(id), 1);
            ScanFree(TableOf(img, id), Chunks(id), 0) == if f == 0 then -1 else f
  {
    AllocatorsAgree(TableOf(img, id), Chunks(id));
  }
}
