/** The program that prepares an ELFS volume on a floppy image, file by file. */
module ElfsWriter {
  import opened Bytes
  import opened ChunkTable
  import opened Elfs
  import opened ElfsSteps

  class Writer {
    const image: array<byte>
    const mediaId: MediaId
    const sectorCount: nat
    const sectorsPerTrack: nat
    var sectorsPerTable: nat
    var chunkCount: nat
    var curDir: nat
    var curDirChunk: nat
    var slotPos: nat           // where the next directory entry goes

    /** The globals the .fs file's medium sets. */
    ghost predicate Configured() {
      sectorCount == Sectors(mediaId) && sectorsPerTrack == SectorsPerTrack(mediaId)
    }

    /** The globals set once the medium is known and the master block written. */
    ghost predicate Ready()
      reads this, image
    {
      && Sized(image[..], mediaId)
      && Configured()
      && sectorsPerTable == TableSectors(mediaId) && chunkCount == Chunks(mediaId)
    }

    constructor (image: array<byte>, mediaId: MediaId)
      requires Sized(image[..], mediaId)
      ensures this.image == image && this.mediaId == mediaId
      ensures Configured()
    {
      this.image := image;
      this.mediaId := mediaId;
      sectorsPerTrack := if mediaId == 1 then 12 else if mediaId == 2 then 16 else 20;
      sectorCount := if mediaId == 1 then 80 * 12 * 2 else if mediaId == 2 then 80 * 16 * 2 else 80 * 20 * 2;
      sectorsPerTable, chunkCount, curDir, curDirChunk, slotPos := 0, 0, 0, 0, 0;
    }

    /** Bytes written at a position of the image. */
    method Put(off: nat, bs: seq<byte>)
      requires off + |bs| <= image.Length
      modifies image
      ensures image[..] == Splice(old(image[..]), off, bs)
    {
      forall i | 0 <= i < |bs| {
        image[off + i] := bs[i];
      }
    }

    method PutWord(off: nat, w: word)
      requires off + 2 <= image.Length
      modifies image
      ensures image[..] == Splice(old(image[..]), off, WordBytes(w))
    {
      Put(off, WordBytes(w));
    }

    /** Subtracts 1024 from the four bytes of the free-space field, borrowing by hand. */
    method ReduceFreeSpace()
      requires Ready()
      modifies image
      ensures Ready() && CountedOff(old(image[..]), image[..], mediaId)
      ensures TableOf(image[..], mediaId) == TableOf(old(image[..]), mediaId)
      ensures SameBut(old(image[..]), image[..], mediaId, [])
    {
      var b1, b2, b3 := image[0x235], image[0x236], image[0x237];
      if b1 < 4 {
        if b2 == 0 {
          b3 := if b3 == 0 then 255 else b3 - 1;
        }
        b2 := if b2 == 0 then 255 else b2 - 1;
      }
      b1 := if b1 < 4 then b1 + 252 else b1 - 4;
      ghost var m := MasterOf(image[..], mediaId);
      assert m[0x34] == image[0x234] && m[0x35] == image[0x235] && m[0x36] == image[0x236] && m[0x37] == image[0x237];
      MasterWrite(image[..], mediaId, 0x34, [image[0x234], b1, b2, b3]);
      Put(0x234, [image[0x234], b1, b2, b3]);
      LongBytesOf(MasterOf(image[..], mediaId), 0x34);
    }

    /** Scans the table from chunk 1 for a free entry; 0 if there is none. */
    method FindFreeChunk() returns (next: nat)
      requires Ready()
      ensures next == FirstFree(TableOf(image[..], mediaId), Chunks(mediaId), 1)
    {
      var i := 1;
      ghost var t := TableOf(image[..], mediaId);
      while i < chunkCount
        invariant 1 <= i <= chunkCount
        invariant FirstFree(t, Chunks(mediaId), 1) == FirstFree(t, Chunks(mediaId), i)
      {
        EntryBytes(image[..], mediaId, i);
        if image[1024 + 2 * i] == 0 && image[1024 + 2 * i + 1] == 0 {
          return i;
        }
        i := i + 1;
      }
      return 0;
    }

    /** Takes the first free chunk, links it after `chunk` unless that is 0, and counts it off. */
    method GetNextFreeChunk(chunk: nat) returns (err: bool, next: nat, index: nat)
      requires Ready() && chunk < Chunks(mediaId)
      modifies image
      ensures Ready()
      ensures next == FirstFree(TableOf(old(image[..]), mediaId), Chunks(mediaId), 1)
      ensures err <==> next == 0
      ensures err ==> image[..] == old(image[..])
      ensures !err ==> Allocated(old(image[..]), image[..], mediaId, chunk, next)
      ensures !err ==> index == ChunkOffset(mediaId, next)
    {
      hide SameBut, FreeSpace, TableOf, MasterOf, FirstFree, CountedOff;
      next := FindFreeChunk();
      if next == 0 {
        return true, 0, 0;
      }
      ghost var img0 := image[..];
      if chunk != 0 {
        TableWrite(image[..], mediaId, chunk, next);
        PutWord(1024 + chunk * 2, next);
      } else {
        SameButItself(img0, mediaId);
      }
      ghost var img1 := image[..];
      TableWrite(image[..], mediaId, next, END);
      PutWord(1024 + next * 2, END);
      ghost var img2 := image[..];
      ReduceFreeSpace();
      SameButTrans(img0, img1, img2, mediaId, [], [], []);
      SameButTrans(img0, img2, image[..], mediaId, [], [], []);
      CountedOffSame(img0, img2, image[..], mediaId);
      return false, next, sectorsPerTable * 512 + next * 1024;
    }

    /** The successor of a chunk in the table, if the chunk can have one. */
    method GetNextChunk(chunk: nat) returns (bad: bool, next: nat, index: nat)
      requires Ready() && chunk < 0x1_0000
      ensures bad <==> chunk >= Chunks(mediaId)
      ensures !bad ==> next == TableOf(image[..], mediaId)[chunk] && index == Base(mediaId) + next * 1024
    {
      next, index := chunk, 0;
      if chunk >= chunkCount {
        return true, chunk, 0;
      }
      EntryBytes(image[..], mediaId, chunk);
      next := Word(image[1024 + chunk * 2], image[1024 + chunk * 2 + 1]);
      return false, next, sectorsPerTable * 512 + next * 1024;
    }

    /** The sizes of the chunk table and the data area follow from the number of sectors. */
    method ComputeGeometry()
      requires Sized(image[..], mediaId) && Configured()
      modifies this
      ensures Ready() && curDir == old(curDir) && curDirChunk == old(curDirChunk)
    {
      sectorsPerTable := (sectorCount + 511) / 512;
      sectorsPerTable := (sectorsPerTable + 1) / 2 * 2;
      chunkCount := sectorCount / 2;
      chunkCount := chunkCount - 1;
      chunkCount := chunkCount - sectorsPerTable / 2;
    }

    /** The master block of an empty volume. The high byte of the highest chunk number is taken from
        the chunk count, which is right as no chunk count is a multiple of 256. */
    method WriteMaster(serial: word, title: seq<byte>)
      requires Ready() && |title| == 16
      modifies image
      ensures Ready() && Described(image[..], mediaId)
      ensures FreeSpace(image[..], mediaId) == 1024 * Chunks(mediaId) && BootPointer(image[..], mediaId) == 0
      ensures Label(image[..], mediaId) == [0, 0, 0, 0] + WordBytes(serial) + title
    {
      hide LongBytes, WordBytes, MasterOf, Described, Label, FreeSpace, BootPointer, TableOf, SameBut, Chunks, Word,
           TableSectors, Elfs.Sectors;
      MasterNumbers(mediaId);
      var maxChunk := Word((chunkCount - 1) % 256, chunkCount / 256 % 256);
      var total := (sectorCount - sectorsPerTable - 2) * 512;
      ghost var m := MasterOf(image[..], mediaId);
      MasterWrite(image[..], mediaId, 0, MasterHead(mediaId, serial));
      Put(512, [0x45, 0x4C, 0x46, 0x53, 0, 0, 0, 0] + WordBytes(mediaId) + WordBytes(serial));
      MasterWrite(image[..], mediaId, 0x10, MasterSizes(mediaId));
      Put(512 + 0x10, WordBytes(10) + WordBytes(maxChunk) + WordBytes(sectorsPerTrack / 2)
          + WordBytes(sectorsPerTable) + WordBytes(2) + WordBytes(0));
      MasterWrite(image[..], mediaId, 0x20, MasterTail(mediaId, title));
      Put(512 + 0x20, title + LongBytes(total) + LongBytes(total) + LongBytes(2 + sectorsPerTable));
      MasterWritten(m, image[..], mediaId, serial, title);
    }

    /** The chunk table of an empty volume. */
    method WriteTable()
      requires Ready()
      modifies image
      ensures Ready() && MasterOf(image[..], mediaId) == MasterOf(old(image[..]), mediaId)
      ensures TableOf(image[..], mediaId) == FreshTable(mediaId)
      ensures forall c :: 0 <= c < 256 * TableSectors(mediaId) ==>
        TableOf(image[..], mediaId)[c] == if 1 <= c < Chunks(mediaId) then 0 else 0xFFFF
    {
      var totalChunks := sectorsPerTable * 256;
      var i := 0;
      while i < totalChunks
        invariant 0 <= i <= totalChunks && Ready()
        invariant MasterOf(image[..], mediaId) == MasterOf(old(image[..]), mediaId)
        invariant forall k :: 0 <= k < i ==> TableOf(image[..], mediaId)[k] == FreshTable(mediaId)[k]
      {
        var w: word := if 1 <= i < chunkCount then FREE else END;
        TableWrite(image[..], mediaId, i, w);
        PutWord(1024 + 2 * i, w);
        i := i + 1;
      }
      assert TableOf(image[..], mediaId) == FreshTable(mediaId);
      FreshEntries(mediaId);
    }

    /** Formats the image: master block, chunk table, and a root directory in chunk 1. */
    method Format(serial: word, title: seq<byte>, date: seq<byte>) returns (err: bool)
      requires Sized(image[..], mediaId) && Configured() && |title| == 16 && |date| == 5
      modifies image, this
      ensures !err && InRoot([]) && BootPointer(image[..], mediaId) == 0
      ensures FreeCount(TableOf(image[..], mediaId), Chunks(mediaId)) == Chunks(mediaId) - 2
      ensures Label(image[..], mediaId) == [0, 0, 0, 0] + WordBytes(serial) + title
      ensures RootDate(image[..], mediaId) == date
    {
      hide Volume, Described, Partition, FirstFree, FreeCount, TableOf, MasterOf, FreshTable, Allocated, EntryOf,
           FreeSpaceExact, BootPointer, FreeSpace, SameBut, Label, RootDate;
      ComputeGeometry();
      WriteMaster(serial, title);
      ghost var img0 := image[..];
      WriteTable();
      ghost var img1 := image[..];
      DescribedSame(img0, img1, mediaId);
      FreshIsEmpty(mediaId);
      FreshExact(img1, mediaId);
      var chunk, index;
      err, chunk, index := GetNextFreeChunk(0);
      ghost var img2 := image[..];
      RootAllocated(img1, img2, mediaId);
      curDir := index;
      curDirChunk := chunk;
      ChunkWrite(image[..], mediaId, 1, 0, seq(1024, _ => 0xFF));
      Put(index, seq(1024, _ => 0xFF));
      VolumeFactsSame(img2, image[..], mediaId);
      AllBlank(ChunkAt(img2, mediaId, 1));
      EntryFields(0x4000, SELF, date, 0, chunk);
      RootStep(image[..], mediaId, EntryOf(0x4000, SELF, date, 0, chunk));
      Put(index, EntryOf(0x4000, SELF, date, 0, chunk));
      slotPos := curDir + 32;
    }

    /** The writer works in the root directory of a volume with these files. */
    ghost predicate InRoot(files: seq<File>)
      reads this, image
    {
      && Ready() && Volume(image[..], mediaId, files)
      && curDirChunk == 1 && curDir == ChunkOffset(mediaId, 1) && slotPos == curDir + 32 * (|files| + 1)
    }

    /** Stores bytes in newly allocated chunks, 1024 at a time; an empty file still gets one. */
    method StoreContent(content: seq<byte>, ghost cc: seq<seq<nat>>)
      returns (err: bool, first: word, ghost chain: seq<nat>)
      requires Ready() && Partition(TableOf(image[..], mediaId), Chunks(mediaId), cc)
      requires FreeSpaceExact(image[..], mediaId)
      modifies image
      ensures Ready()
      ensures err <==> FreeCount(TableOf(old(image[..]), mediaId), Chunks(mediaId)) < Blocks(|content|)
      ensures !err ==> Storing(old(image[..]), image[..], mediaId, cc, content, chain, |chain|)
      ensures !err ==> |chain| == Blocks(|content|) && chain[0] == first
    {
      hide Storing, Partition, FreeCount, FreeSpaceExact, FirstFree, Allocated;
      var off, chunk := 0, 0;
      first, chain := 0xFFFF, [];
      ghost var img0 := image[..];
      StoringNothing(img0, mediaId, cc, content);
      while off < |content| || first == 0xFFFF
        invariant Ready() && off <= |content| && |chain| <= Blocks(|content|)
        invariant Storing(img0, image[..], mediaId, cc, content, chain, |chain|)
        invariant off == if 1024 * |chain| <= |content| then 1024 * |chain| else |content|
        invariant chunk == Tail(chain) && chunk < Chunks(mediaId)
        invariant if chain == [] then first == 0xFFFF else first == chain[0] && first < Chunks(mediaId)
        decreases Blocks(|content|) - |chain|
      {
        var read := if |content| - off < 1024 then |content| - off else 1024;
        var index;
        StoringFacts(img0, image[..], mediaId, cc, content, chain);
        ghost var img := image[..];
        err, chunk, index := GetNextFreeChunk(chunk);
        if err {
          return true, first, chain;
        }
        if first == 0xFFFF {
          first := chunk;
        }
        AllocationStep(img0, img, image[..], mediaId, cc, content, chain, chunk);
        chain := chain + [chunk];
        PieceStep(img0, image[..], mediaId, cc, content, chain);
        assert content[off..off + read] == Piece(content, |chain| - 1);
        Put(index, content[off..off + read]);
        off := off + read;
      }
      StoringFacts(img0, image[..], mediaId, cc, content, chain);
      return false, first, chain;
    }

    /** Whether some slot of the root directory has the name. */
    method FindName(name: seq<byte>) returns (found: bool)
      requires Ready() && |name| == 14 && curDirChunk == 1 && curDir == ChunkOffset(mediaId, 1)
      requires TableOf(image[..], mediaId)[1] == END
      ensures found <==> exists k :: 0 <= k < 32 && SlotName(image[..], mediaId, k) == name
    {
      found := false;
      var chunk, at := curDirChunk, curDir;
      while !found && chunk != 0xFFFF
        invariant chunk == 1 || chunk == 0xFFFF
        invariant chunk == 1 ==> at == curDir && !found
        invariant found ==> exists k :: 0 <= k < 32 && SlotName(image[..], mediaId, k) == name
        invariant chunk == 0xFFFF && !found ==> forall k :: 0 <= k < 32 ==> SlotName(image[..], mediaId, k) != name
        decreases !found, 0xFFFF - chunk
      {
        var i := 0;
        while i < 32
          invariant 0 <= i <= 32 && !found
          invariant forall k :: 0 <= k < i ==> SlotName(image[..], mediaId, k) != name
        {
          SlotNameBytes(image[..], mediaId, i);
          assert image[at + 32 * i + 2..at + 32 * i + 16] == image[..][at + 32 * i + 2..at + 32 * i + 16];
          if image[at + 32 * i + 2..at + 32 * i + 16] == name {
            found := true;
            break;
          }
          i := i + 1;
        }
        var bad;
        bad, chunk, at := GetNextChunk(chunk);
      }
    }

    /** Adds a file to the root directory: its content, the boot pointer if it is the system file, and
        its directory entry. It fails when the disk is full or the name is taken. */
    method AddFile(isDosSys: bool, name: seq<byte>, attr: word, date: seq<byte>, content: seq<byte>,
                   ghost files: seq<File>)
      returns (err: bool, ghost chain: seq<nat>)
      requires InRoot(files) && |files| < 31 && DirName(name) && |date| == 5
      modifies image, this
      ensures var full := FreeCount(TableOf(old(image[..]), mediaId), Chunks(mediaId)) < Blocks(|content|);
              var taken := name == SELF || exists i :: 0 <= i < |files| && files[i].name == name;
              err <==> full || taken
      ensures Sized(image[..], mediaId)
      ensures !err ==> InRoot(files + [File(name, attr, date, content, chain)]) && chain != []
      ensures !err ==>
                FreeCount(TableOf(image[..], mediaId), Chunks(mediaId)) + Blocks(|content|)
                == FreeCount(TableOf(old(image[..]), mediaId), Chunks(mediaId))
      ensures !err && isDosSys ==> BootPointer(image[..], mediaId) == chain[0]
      ensures !err && !isDosSys ==> BootPointer(image[..], mediaId) == BootPointer(old(image[..]), mediaId)
      ensures !err ==> BootSector(image[..], mediaId) == BootSector(old(image[..]), mediaId)
      ensures !err ==> SameHeading(old(image[..]), image[..], mediaId)
    {
      hide Partition, FreeCount, FreeSpaceExact, Described, BootPointer, Storing, Directory, Stored, NamesDistinct,
           BootSector, Volume, Unlisted, TableOf, SlotName, EntryOf, Label, RootDate;
      ghost var img0 := image[..];
      VolumeGives(img0, mediaId, files);
      var first;
      err, first, chain := StoreContent(content, Chains(files));
      if err {
        return;
      }
      ghost var f := File(name, attr, date, content, chain);
      StoringTakes(img0, image[..], mediaId, Chains(files), content, chain);
      StoredUnlisted(img0, image[..], mediaId, files, f);
      if isDosSys && curDirChunk == 1 {
        PointerStep(image[..], mediaId, files, f, first);
        PutWord(0x21A, first);
      }
      UnlistedGives(image[..], mediaId, files, f);
      err := FindName(name);
      NameTaken(image[..], mediaId, files, name);
      if err {
        return;
      }
      ContentFits(img0, mediaId, content);
      EntryFields(attr, name, date, |content|, first);
      ListingStep(image[..], mediaId, files, f, EntryOf(attr, name, date, |content|, first));
      Put(slotPos, EntryOf(attr, name, date, |content|, first));
      slotPos := slotPos + 32;
    }

    /** Prepares the whole volume: formats it and adds the files in order. */
    method Prepare(serial: word, title: seq<byte>, date: seq<byte>, adds: seq<Addition>)
      returns (err: bool, ghost files: seq<File>)
      requires Sized(image[..], mediaId) && Configured() && |title| == 16 && |date| == 5
      requires |adds| <= 31 && forall a <- adds :: WellNamed(a)
      modifies image, this
      ensures Sized(image[..], mediaId)
      ensures err <==> !Addable(adds, mediaId)
      ensures !err ==> Volume(image[..], mediaId, files) && |files| == |adds|
      ensures !err ==> Follows(image[..], mediaId, files, adds)
      ensures !err ==> Label(image[..], mediaId) == [0, 0, 0, 0] + WordBytes(serial) + title
      ensures !err ==> RootDate(image[..], mediaId) == date
    {
      hide Label, RootDate, Volume, BootPointer, FreeCount, Partition, Follows, NamesDistinct, TableOf, Blocks,
           BlocksOf;
      err := Format(serial, title, date);
      files := [];
      FollowsNothing(image[..], mediaId, adds);
      BlocksOfNone(adds);
      var i := 0;
      while i < |adds|
        invariant 0 <= i <= |adds| && |files| == i && InRoot(files)
        invariant Follows(image[..], mediaId, files, adds)
        invariant Label(image[..], mediaId) == [0, 0, 0, 0] + WordBytes(serial) + title
        invariant RootDate(image[..], mediaId) == date
        invariant FreeCount(TableOf(image[..], mediaId), Chunks(mediaId)) + BlocksOf(adds, i) == Chunks(mediaId) - 2
        invariant forall j :: 0 <= j < i ==> !Taken(adds, j)
      {
        assert adds[i] in adds;
        AdditionStep(image[..], mediaId, files, adds, i, FreeCount(TableOf(image[..], mediaId), Chunks(mediaId)));
        ghost var img := image[..];
        ghost var chain;
        err, chain := AddFile(adds[i].isDosSys, adds[i].name, adds[i].attr, adds[i].date, adds[i].content, files);
        if err {
          return;
        }
        ghost var f := File(adds[i].name, adds[i].attr, adds[i].date, adds[i].content, chain);
        VolumeNames(image[..], mediaId, files + [f]);
        FollowsOneMore(img, image[..], mediaId, files, adds, f);
        files := files + [f];
        i := i + 1;
      }
      err := false;
    }
  }

  lemma AllBlank(c: seq<byte>)
    requires |c| == 1024
    ensures Splice(c, 0, seq(1024, _ => 0xFF)) == seq(1024, _ => 0xFF)
  {
  }
}
