/** Finding a file by its typed name: DOS reads the root directory to RAM and looks through its slots,
    passing over the free ones. */
module DosFind {
  import opened Bytes
  import opened Memory
  import opened Machine
  import opened SectorLoad
  import opened ChunkTable
  import opened Elfs
  import opened DiskRead
  import ElfsSteps
  import Names
  import Dos

  const DIRCACHE: word := 0x9C00

  /** The root directory's chunk is in RAM. */
  predicate DirInRam(s: Sys, img: seq<byte>, id: MediaId) {
    Ok(s) && Elfs.Sized(img, id) && Bank(s.mem, 0)[DIRCACHE..DIRCACHE + 1024] == ChunkAt(img, id, 1)
  }

  /** A slot in use whose name is the typed one. */
  predicate Answers(img: seq<byte>, id: MediaId, k: nat, name: seq<byte>)
    requires Elfs.Sized(img, id) && k < 32
  {
    Slot(img, id, k)[0] < 0x80 && SlotName(img, id, k)[10] == Names.DOT && name == Names.NameOf(SlotName(img, id, k))
  }

  /** No name in the directory has a null in it. */
  predicate NoNulls(img: seq<byte>, id: MediaId)
    requires Elfs.Sized(img, id)
  {
    forall k :: 0 <= k < 32 ==> Slot(img, id, k)[0] < 0x80 ==> 0 !in SlotName(img, id, k)
  }

  /** Reads the root directory to RAM. */
  method PageInDirectory(d: Dos.Dos, ghost img: seq<byte>, ghost id: MediaId)
    requires d.m.Valid() && Dos.Paged(d.m.State(), img, id) && d.ioBank == 0x80
    modifies d`loadTrk, d`loadSect, d.m.Devices(), d.m.Memories()
    ensures d.m.Valid() && Dos.Paged(d.m.State(), img, id) && DirInRam(d.m.State(), img, id)
  {
    hide Dos.Paged, DirInRam, DataRead, Quiet, HasDisk, Bank, Machine.State, Machine.Valid;
    ghost var s := d.m.State();
    Dos.PagedFacts(s, img, id);
    var _ := d.LoadChunk(DIRCACHE, 1, img, id);
    DirectoryArrives(s, d.m.State(), img, id);
  }

  /** The directory does not overwrite the master block or the table. */
  lemma DirectoryArrives(s: Sys, t: Sys, img: seq<byte>, id: MediaId)
    requires Dos.Paged(s, img, id) && DataRead(s, t, 0x80, DIRCACHE, ChunkAt(img, id, 1)) && HasDisk(t, img, id)
    ensures Dos.Paged(t, img, id) && DirInRam(t, img, id)
  {
    hide Bank, HasDisk, Described, Loaded, ChunkAt;
    var data := ChunkAt(img, id, 1);
    ThisPlace(s, t, 0x80, DIRCACHE, data);
    OtherPlaces(s, t, 0x80, DIRCACHE, data, 0, FSMB, FSMB + 512);
    OtherPlaces(s, t, 0x80, DIRCACHE, data, 0, Dos.CTABLE, Dos.CTABLE + Base(id));
  }

  lemma SlotInRam(s: Sys, img: seq<byte>, id: MediaId, k: nat)
    requires DirInRam(s, img, id) && k < 32
    ensures Elfs.Sized(img, id)
    ensures Bank(s.mem, 0)[DIRCACHE + 32 * k..DIRCACHE + 32 * k + 32] == Slot(img, id, k)
  {
    hide Bank, ChunkAt;
    SliceOfSlice(Bank(s.mem, 0), DIRCACHE, DIRCACHE + 1024, 32 * k, 32 * k + 32);
  }

  method LoadByte(m: Machine, a: word) returns (v: byte)
    requires m.Valid()
    ensures v == Bank(m.State().mem, 0)[a]
  {
    var p;
    v, p := m.mem.Read(0x80_0000 + a);
    assert Resolve(0x80_0000 + a, m.mem.stackBank) == Ram(a);
  }

  /** Compares the name in a slot of the directory in RAM with a typed one. */
  method SlotHasName(d: Dos.Dos, off: word, name: seq<byte>, ghost img: seq<byte>, ghost id: MediaId, ghost k: nat)
    returns (same: bool)
    requires d.m.Valid() && DirInRam(d.m.State(), img, id) && k < 32 && off == 32 * k
    requires 0 !in name && 0 !in SlotName(img, id, k)
    ensures same <==> SlotName(img, id, k)[10] == Names.DOT && name == Names.NameOf(SlotName(img, id, k))
  {
    hide Bank, Slot, Machine.State, Machine.Valid, DirInRam, Names.NameOf;
    SlotInRam(d.m.State(), img, id, k);
    var e := [];
    for i := 0 to 14
      invariant |e| == i && forall j :: 0 <= j < i ==> e[j] == SlotName(img, id, k)[j]
    {
      var v := LoadByte(d.m, DIRCACHE + off + 2 + i);
      assert Slot(img, id, k)[2 + i] == Bank(d.m.State().mem, 0)[DIRCACHE + 32 * k + (2 + i)];
      e := e + [v];
    }
    assert e == SlotName(img, id, k);
    same := Names.Compare(name, e);
  }

  /** Whether a slot of the directory in RAM is in use and has the name. */
  method SlotAnswers(d: Dos.Dos, off: word, name: seq<byte>, ghost img: seq<byte>, ghost id: MediaId, ghost k: nat)
    returns (yes: bool)
    requires d.m.Valid() && DirInRam(d.m.State(), img, id) && k < 32 && off == 32 * k
    requires 0 !in name && NoNulls(img, id)
    ensures yes <==> Answers(img, id, k, name)
  {
    hide Bank, Slot, SlotName, Machine.State, Machine.Valid, DirInRam, Names.NameOf;
    SlotInRam(d.m.State(), img, id, k);
    var v := LoadByte(d.m, DIRCACHE + off);
    assert Slot(img, id, k)[0] == Bank(d.m.State().mem, 0)[DIRCACHE + 32 * k];
    if v >= 0x80 {
      return false;
    }
    yes := SlotHasName(d, off, name, img, id, k);
  }

  /** Looks the name up: the first slot in use that has it. */
  method ResolveFile(d: Dos.Dos, name: seq<byte>, ghost img: seq<byte>, ghost id: MediaId)
    returns (found: bool, off: word)
    requires d.m.Valid() && Dos.Paged(d.m.State(), img, id) && d.ioBank == 0x80
    requires 0 !in name && Elfs.Sized(img, id) && NoNulls(img, id) && TableOf(img, id)[1] == END
    modifies d`loadTrk, d`loadSect, d.m.Devices(), d.m.Memories()
    ensures d.m.Valid() && Dos.Paged(d.m.State(), img, id) && DirInRam(d.m.State(), img, id)
    ensures found ==> off % 32 == 0 && off < 1024 && Answers(img, id, off / 32, name)
                      && forall j :: 0 <= j < off / 32 ==> !Answers(img, id, j, name)
    ensures !found ==> forall k :: 0 <= k < 32 ==> !Answers(img, id, k, name)
  {
    hide Dos.Paged, DirInRam, NoNulls, Answers, TableOf, Machine.State, Machine.Valid;
    PageInDirectory(d, img, id);
    var chunk: word := 1;
    while chunk != 0xFFFF
      invariant chunk == 1 || chunk == 0xFFFF
      invariant d.m.Valid() && Dos.Paged(d.m.State(), img, id) && DirInRam(d.m.State(), img, id)
      invariant chunk == 0xFFFF ==> forall k :: 0 <= k < 32 ==> !Answers(img, id, k, name)
      decreases 0xFFFF - chunk
    {
      off := 0;
      ghost var k := 0;
      while off < 0x0400
        invariant 0 <= k <= 32 && off == 32 * k
        invariant d.m.Valid() && Dos.Paged(d.m.State(), img, id) && DirInRam(d.m.State(), img, id)
        invariant forall j :: 0 <= j < k ==> !Answers(img, id, j, name)
      {
        found := SlotAnswers(d, off, name, img, id, k);
        if found {
          return;
        }
        off := off + 0x20;
        k := k + 1;
      }
      Dos.PagedTable(d.m.State(), img, id);
      chunk := d.NextChunk(chunk, id);
    }
    return false, 0;
  }

  /** The size and the first chunk of the entry that was found. */
  method EntryNumbers(d: Dos.Dos, off: word, ghost img: seq<byte>, ghost id: MediaId)
    returns (size: nat, start: word)
    requires d.m.Valid() && DirInRam(d.m.State(), img, id) && off % 32 == 0 && off < 1024
    ensures size == LongAt(Slot(img, id, off / 32), 0x1A) && start == WordAt(Slot(img, id, off / 32), 0x1E)
  {
    hide Bank, Slot, Machine.State, Machine.Valid, DirInRam;
    ghost var b, k := Bank(d.m.State().mem, 0), off / 32;
    SlotInRam(d.m.State(), img, id, k);
    assert off == 32 * k;
    SliceWord(b, DIRCACHE + 32 * k, DIRCACHE + 32 * k + 32, 0x1A);
    SliceWord(b, DIRCACHE + 32 * k, DIRCACHE + 32 * k + 32, 0x1C);
    SliceWord(b, DIRCACHE + 32 * k, DIRCACHE + 32 * k + 32, 0x1E);
    var low := LoadLong(d.m, DIRCACHE + off + 0x1A);
    var high := LoadLong(d.m, DIRCACHE + off + 0x1C);
    start := LoadLong(d.m, DIRCACHE + off + 0x1E);
    size := low as int + 0x1_0000 * high as int;
  }

  // ------------------------------------------------------------------ names on a volume

  /** The name is the one its short form is expanded to, as names typed without spaces are. */
  predicate TypedName(name: seq<byte>)
    requires |name| == 14
  {
    Names.Acceptable(Names.NameOf(name)) && Names.Expanded(Names.NameOf(name)) == name
  }

  lemma PlainNamesAreTyped(s: seq<byte>)
    requires Names.Plain(s) && Names.Acceptable(s)
    ensures TypedName(Names.Expanded(s))
  {
    hide Names.Expanded, Names.Acceptable, Names.Plain, Names.NameOf, Names.Printed, Names.Shortened;
    Names.ExpandedName(s);
    Names.NamesRoundTrip(s, []);
  }

  predicate FilesTyped(files: seq<File>) {
    forall i :: 0 <= i < |files| ==> files[i].attr < 0x8000 && |files[i].name| == 14 && TypedName(files[i].name)
  }

  lemma SelfName()
    ensures SELF[10] == Names.DOT && 0 !in SELF && Names.NameOf(SELF) == [Names.DOT]
  {
    var e := SELF[..10];
    assert e[0] == Names.DOT && e[1..] == seq(9, _ => Names.SPACE);
    Names.AllSpaces(9);
    assert SELF[11] == Names.SPACE;
  }

  /** On a volume with such files, the typed names that are found are the dot and the files' own, and
      each is found in one slot only. */
  lemma WhoAnswers(img: seq<byte>, id: MediaId, files: seq<File>, name: seq<byte>, k: nat)
    requires Volume(img, id, files) && FilesTyped(files) && k < 32
    ensures Answers(img, id, k, name)
       <==> if k == 0 then name == [Names.DOT] else k <= |files| && name == Names.NameOf(files[k - 1].name)
  {
    hide Slot, Partition, Described, Stored, FreeSpaceExact, TypedName, Names.NameOf;
    forall f <- files
      ensures f.attr < 0x8000
    {
    }
    ElfsSteps.SlotsInUse(img, id, files, k);
    SelfName();
    if 1 <= k <= |files| {
      assert Listed(img, id, k - 1 + 1, files[k - 1]);
      assert DirName(files[k - 1].name);
    }
  }

  lemma NamesAreUnique(files: seq<File>, i: nat, j: nat)
    requires FilesTyped(files) && NamesDistinct(files) && i < |files| && j < |files|
    requires Names.NameOf(files[i].name) == Names.NameOf(files[j].name)
    ensures i == j
  {
    hide Names.NameOf, Names.Expanded, Names.Acceptable;
  }

  lemma VolumeHasNoNulls(img: seq<byte>, id: MediaId, files: seq<File>)
    requires Volume(img, id, files) && FilesTyped(files)
    ensures Elfs.Sized(img, id) && NoNulls(img, id) && TableOf(img, id)[1] == END
  {
    hide Slot, SlotName, Described, Stored, FreeSpaceExact, TypedName, FilesTyped, Directory, NamesDistinct, TableOf;
    assert IsChain(TableOf(img, id), Chunks(id), Chains(files)[0]);
    forall k | 0 <= k < 32 && Slot(img, id, k)[0] < 0x80
      ensures 0 !in SlotName(img, id, k)
    {
      SlotHasNoNull(img, id, files, k);
    }
  }

  lemma SlotHasNoNull(img: seq<byte>, id: MediaId, files: seq<File>, k: nat)
    requires Volume(img, id, files) && FilesTyped(files) && k < 32 && Slot(img, id, k)[0] < 0x80
    ensures 0 !in SlotName(img, id, k)
  {
    hide Slot, SlotName, Partition, Described, Stored, FreeSpaceExact, TypedName, Directory, NamesDistinct;
    forall f <- files
      ensures f.attr < 0x8000
    {
    }
    ElfsSteps.SlotsInUse(img, id, files, k);
    SelfName();
    NameInSlot(img, id, files, k);
  }

  lemma NameInSlot(img: seq<byte>, id: MediaId, files: seq<File>, k: nat)
    requires Elfs.Sized(img, id) && |files| < 32 && Directory(img, id, files) && NamesDistinct(files) && k <= |files|
    ensures SlotName(img, id, k) == if k == 0 then SELF else files[k - 1].name
    ensures k > 0 ==> 0 !in files[k - 1].name
  {
    hide Slot;
    if k > 0 {
      assert Listed(img, id, k - 1 + 1, files[k - 1]);
      assert DirName(files[k - 1].name);
    }
  }
}
