/** From the volume writer to its readers: what was written is what the boot loader and the program
    loader find, through the drive and the DMA channel. */
module EndToEnd {
  import opened Bytes
  import opened Machine
  import opened SectorLoad
  import opened Elfs
  import opened ElfsSteps
  import opened DiskRead
  import opened DosFind
  import Memory
  import Names
  import ElfsWriter
  import Boot
  import Dos
  import FloppyRuns

  /** Inserting the image gives the drive a medium of the image's kind. */
  lemma InsertedDisk(s: Sys, t: Sys, img: seq<byte>, id: MediaId, wp: bool, clear: bool)
    requires Quiet(s) && Elfs.Sized(img, id)
    requires t == s.(drive := FloppyRuns.Mount(s.drive, img, wp, clear))
    ensures Quiet(t) && HasDisk(t, img, id)
  {
  }

  /** Writes a volume with the system file and any other files around it, inserts it, and boots: unless
      the disk was too small or a name was used twice, bank $81 then starts with the system file, and
      the loader finds its signature exactly when the file has it. */
  method WriteAndBoot(image: array<byte>, id: MediaId, serial: word, title: seq<byte>, date: seq<byte>,
                      adds: seq<Addition>, k: nat, m: Machine, wp: bool, clear: bool)
    returns (written: bool, booted: bool, signed: bool)
    requires Elfs.Sized(image[..], id) && |title| == 16 && |date| == 5
    requires |adds| <= 31 && forall a <- adds :: WellNamed(a)
    requires k < |adds| && adds[k].isDosSys && |adds[k].content| <= 64 * 1024
    requires m.Valid() && Quiet(m.State())
    requires image !in m.Devices() && image !in m.Memories() && image != m.mem.rom
    modifies image, m.Devices(), m.Memories()
    ensures written <==> Addable(adds, id)
    ensures written ==> booted && m.Valid() && adds[k].content <= Bank(m.State().mem, 1)
    ensures written && |adds[k].content| >= 4 ==> (signed <==> adds[k].content[..4] == [0x44, 0x4F, 0x53, 0x2E])
  {
    hide Volume, HasDisk, Bank, Machine.State, Machine.Valid, BootPointer, Quiet;
    booted, signed := false, false;
    var w := new ElfsWriter.Writer(image, id);
    var err;
    ghost var files;
    err, files := w.Prepare(serial, title, date, adds);
    written := !err;
    if err {
      return;
    }
    ghost var img, s := image[..], m.State();
    InsertImage(m, image[..], id, wp, clear);
    var loader := new Boot.BootLoader(m);
    BootPointerSet(img, id, files, k);
    Boot.DiskIsThere(m.State(), img, id);
    QuietReady(m.State());
    booted, signed := loader.BootLoad(img, id, files, k);
  }

  method InsertImage(m: Machine, img: seq<byte>, ghost id: MediaId, wp: bool, clear: bool)
    requires m.Valid() && Quiet(m.State()) && Elfs.Sized(img, id)
    modifies m.drive, m.drive.disk
    ensures m.Valid() && Quiet(m.State()) && HasDisk(m.State(), img, id)
  {
    ghost var s := m.State();
    var _ := m.drive.Insert(img, wp, clear);
    InsertedDisk(s, m.State(), img, id, wp, clear);
  }

  lemma BootPointerSet(img: seq<byte>, id: MediaId, files: seq<File>, k: nat)
    requires Volume(img, id, files) && k < |files|
    ensures Elfs.Sized(img, id) && files[k].chain != [] && files[k].chain[0] != 0
  {
    assert Chains(files)[k + 1] == files[k].chain;
  }

  /** The additions are ordinary files with names typed without spaces. */
  predicate Ordinary(adds: seq<Addition>) {
    forall a <- adds :: WellNamed(a) && a.attr < 0x8000 && TypedName(a.name)
  }

  /** Writes a volume, brings it in under DOS, looks up a typed name and loads the file as a program:
      unless the disk was too small, a name was used twice, or the disk is one DOS refuses, exactly the
      names of the files are found, a file below the size limit is then unchanged at $0100 of the
      program's bank, and a larger one is turned away. */
  method WriteAndRun(image: array<byte>, id: MediaId, serial: word, title: seq<byte>, date: seq<byte>,
                     adds: seq<Addition>, name: seq<byte>, bank: byte, m: Machine, wp: bool, clear: bool)
    returns (written: bool, paged: bool, found: bool, loaded: bool)
    requires Elfs.Sized(image[..], id) && |title| == 16 && |date| == 5
    requires |adds| <= 31 && Ordinary(adds) && 0 !in name && name != [Names.DOT]
    requires RamBank(bank) && bank != 0x80
    requires m.Valid() && Quiet(m.State())
    requires image !in m.Devices() && image !in m.Memories() && image != m.mem.rom
    modifies image, m.Devices(), m.Memories()
    ensures written <==> Addable(adds, id)
    ensures paged <==> written && id != 1
    ensures found <==> paged && exists k :: 0 <= k < |adds| && Names.NameOf(adds[k].name) == name
    ensures loaded ==> found && m.Valid()
    ensures forall k :: 0 <= k < |adds| && Names.NameOf(adds[k].name) == name ==>
      && (loaded <==> paged && |adds[k].content| < 65280)
      && (loaded ==> InBank(m.State().mem, bank, adds[k].content))
  {
    hide Volume, HasDisk, Bank, Machine.State, Machine.Valid, Quiet, Dos.Paged, Slot, TypedName, Names.NameOf,
         InBank;
    paged, found, loaded := false, false, false;
    var w := new ElfsWriter.Writer(image, id);
    var err;
    ghost var files;
    err, files := w.Prepare(serial, title, date, adds);
    written := !err;
    if err {
      return;
    }
    FilesAreTyped(image[..], id, files, adds);
    paged, found, loaded := InsertAndRun(image[..], id, files, name, bank, m, wp, clear);
    assert forall k :: 0 <= k < |adds| ==> adds[k].name == files[k].name && adds[k].content == files[k].content;
  }

  /** The bytes of a program in its bank. */
  predicate InBank(mem: Memory.Mem, bank: byte, content: seq<byte>)
    requires Memory.Sized(mem) && RamBank(bank)
  {
    |content| < 65280 && Bank(mem, bank - 0x80)[0x0100..0x0100 + |content|] == content
  }

  lemma FilesAreTyped(img: seq<byte>, id: MediaId, files: seq<File>, adds: seq<Addition>)
    requires Elfs.Sized(img, id) && Follows(img, id, files, adds) && |files| == |adds| && Ordinary(adds)
    ensures FilesTyped(files)
  {
    hide TypedName, BootPointer;
    forall i | 0 <= i < |files|
      ensures files[i].attr < 0x8000 && |files[i].name| == 14 && TypedName(files[i].name)
    {
      assert adds[i] in adds;
    }
  }

  /** The part that begins with a finished image. */
  method InsertAndRun(img: seq<byte>, id: MediaId, ghost files: seq<File>, name: seq<byte>, bank: byte, m: Machine,
                      wp: bool, clear: bool)
    returns (paged: bool, found: bool, loaded: bool)
    requires Volume(img, id, files) && FilesTyped(files) && 0 !in name && name != [Names.DOT]
    requires RamBank(bank) && bank != 0x80
    requires m.Valid() && Quiet(m.State())
    modifies m.Devices(), m.Memories()
    ensures m.Valid()
    ensures paged <==> id != 1
    ensures found <==> paged && exists k :: 0 <= k < |files| && Names.NameOf(files[k].name) == name
    ensures loaded ==> found
    ensures forall k :: 0 <= k < |files| && Names.NameOf(files[k].name) == name ==>
      && (loaded <==> paged && |files[k].content| < 65280)
      && (loaded ==> InBank(m.State().mem, bank, files[k].content))
  {
    hide Volume, HasDisk, Bank, Machine.State, Machine.Valid, Quiet, Dos.Paged, InBank, FilesTyped, Names.NameOf;
    found, loaded := false, false;
    Boot.VolumeDescribed(img, id, files);
    InsertImage(m, img, id, wp, clear);
    var dos := new Dos.Dos(m);
    var err := dos.PageIn(img, id);
    paged := !err;
    if err {
      return;
    }
    found, loaded := Launch(dos, name, bank, img, id, files);
  }

  /** Launching a program by its name: the lookup, the size check, and the load. */
  method Launch(d: Dos.Dos, name: seq<byte>, bank: byte, ghost img: seq<byte>, ghost id: MediaId,
                ghost files: seq<File>)
    returns (found: bool, loaded: bool)
    requires d.m.Valid() && Dos.Paged(d.m.State(), img, id) && d.ioBank == 0x80
    requires Volume(img, id, files) && FilesTyped(files) && 0 !in name && name != [Names.DOT]
    requires RamBank(bank) && bank != 0x80
    modifies d, d.m.Devices(), d.m.Memories()
    ensures d.m.Valid()
    ensures found <==> exists k :: 0 <= k < |files| && Names.NameOf(files[k].name) == name
    ensures loaded ==> found
    ensures forall k :: 0 <= k < |files| && Names.NameOf(files[k].name) == name ==>
      && (loaded <==> |files[k].content| < 65280)
      && (loaded ==> InBank(d.m.State().mem, bank, files[k].content))
  {
    hide Volume, Bank, Machine.State, Machine.Valid, Dos.Paged, Slot, WordAt, LongAt, DirInRam, Answers, NoNulls,
         FilesTyped, Names.NameOf;
    VolumeHasNoNulls(img, id, files);
    var off;
    loaded := false;
    found, off := ResolveFile(d, name, img, id);
    Answering(img, id, files, name, found, off);
    if !found {
      return;
    }
    ghost var k := off / 32 - 1;
    Dos.ProgramFacts(img, id, files, k);
    var size, start := EntryNumbers(d, off, img, id);
    var err := d.LoadProgram(bank, img, id, files, k, size, start);
    loaded := !err;
  }

  /** The lookup finds a file when there is one of that name, and then that file and no other. */
  lemma Answering(img: seq<byte>, id: MediaId, files: seq<File>, name: seq<byte>, found: bool, off: word)
    requires Volume(img, id, files) && FilesTyped(files) && name != [Names.DOT]
    requires found ==> off % 32 == 0 && off < 1024 && Answers(img, id, off / 32, name)
    requires !found ==> forall k :: 0 <= k < 32 ==> !Answers(img, id, k, name)
    ensures found <==> exists k :: 0 <= k < |files| && Names.NameOf(files[k].name) == name
    ensures found ==> 1 <= off / 32 <= |files| && Names.NameOf(files[off / 32 - 1].name) == name
    ensures found ==> forall k :: 0 <= k < |files| && Names.NameOf(files[k].name) == name ==> k == off / 32 - 1
  {
    hide Answers, Volume, FilesTyped, Names.NameOf, NamesDistinct;
    FilesFit(img, id, files);
    if found {
      WhoAnswers(img, id, files, name, off / 32);
      forall k | 0 <= k < |files| && Names.NameOf(files[k].name) == name
        ensures k == off / 32 - 1
      {
        NamesAreUnique(files, k, off / 32 - 1);
      }
    } else {
      forall k | 0 <= k < |files|
        ensures Names.NameOf(files[k].name) != name
      {
        WhoAnswers(img, id, files, name, k + 1);
      }
    }
  }

  lemma FilesFit(img: seq<byte>, id: MediaId, files: seq<File>)
    requires Volume(img, id, files) && FilesTyped(files)
    ensures Elfs.Sized(img, id) && |files| < 32 && NamesDistinct(files)
    ensures forall k :: 0 <= k < |files| ==> |files[k].name| == 14
  {
  }
}
