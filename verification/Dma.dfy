/** A DMA channel: its registers, and what one job does to them and to memory. */
module Dma {
  import opened Bytes
  import opened Memory

  datatype Channel = Channel(
    control: byte, status: byte,
    copied: word, count: word, lcount: word,
    dst: word, src: word, dstBank: byte, srcBank: byte)

  predicate Enabled(c: Channel) { c.control / 128 % 2 == 1 }

  predicate DstFixed(c: Channel) { c.control / 8 % 2 == 1 }

  predicate SrcFixed(c: Channel) { c.control / 4 % 2 == 1 }

  predicate Copying(c: Channel) { c.status / 128 % 2 == 1 }

  function SetCopying(c: Channel, on: bool): Channel {
    c.(status := c.status % 128 + if on then 128 else 0)
  }

  function Dec(w: word): word { if w == 0 then 0xFFFF else w - 1 }

  /** The registers after one more byte. */
  function Advance(c: Channel): Channel {
    var c := c.(copied := Plus(c.copied, 1),
                dst := if DstFixed(c) then c.dst else Plus(c.dst, 1),
                src := if SrcFixed(c) then c.src else Plus(c.src, 1),
                count := Dec(c.count));
    if c.count == 0 then SetCopying(c, false) else c
  }

  /** A write to register `r` of a channel. */
  function WriteReg(c: Channel, r: nat, v: byte): Channel {
    match r % 16
    case 0 =>
      var c := c.(control := v / 128 * 128 + v % 16);
      var c := if v / 16 % 2 == 1 then c.(copied := 0) else c;
      if v / 128 % 2 == 1 then SetCopying(c.(count := c.lcount), true) else c
    case 8 => c.(dstBank := v)
    case 9 => c.(srcBank := v)
    case 10 => var n := WithLo(c.lcount, v); c.(lcount := n, count := n)
    case 11 => var n := WithHi(c.lcount, v); c.(lcount := n, count := n)
    case 12 => c.(dst := WithLo(c.dst, v))
    case 13 => c.(dst := WithHi(c.dst, v))
    case 14 => c.(src := WithLo(c.src, v))
    case 15 => c.(src := WithHi(c.src, v))
    case _ => c
  }

  function ReadReg(c: Channel, r: nat): byte {
    match r % 16
    case 0 => c.control
    case 1 => c.status
    case 2 => Lo(c.copied)
    case 3 => Hi(c.copied)
    case 8 => c.dstBank
    case 9 => c.srcBank
    case 10 => Lo(c.lcount)
    case 11 => Hi(c.lcount)
    case 12 => Lo(c.dst)
    case 13 => Hi(c.dst)
    case 14 => Lo(c.src)
    case 15 => Hi(c.src)
    case _ => 0
  }

  /** What each register reads after a write to any register: registers 8 to 15 read as written and keep
      out of each other's way; the control register reads back its enable and mode bits, and writing
      it may clear the copied counter and set the copying bit; all other registers are read-only. */
  lemma RegisterReadBack(c: Channel, r: nat, v: byte, q: nat)
    ensures ReadReg(WriteReg(c, r, v), q)
         == if r % 16 >= 8 then if q % 16 == r % 16 then v else ReadReg(c, q)
            else if r % 16 != 0 then ReadReg(c, q)
            else if q % 16 == 0 then v - v / 16 % 8 * 16
            else if q % 16 == 1 && v >= 128 then ReadReg(c, q) % 128 + 128
            else if (q % 16 == 2 || q % 16 == 3) && v / 16 % 2 == 1 then 0
            else ReadReg(c, q)
  {
    hide WithLo, WithHi, Lo, Hi;
    OtherByteStays(c.lcount, v);
    OtherByteStays(c.dst, v);
    OtherByteStays(c.src, v);
    ControlBits(v);
    assert Lo(0) == 0 && Hi(0) == 0 by { ZeroBytes(); }
  }

  lemma OtherByteStays(w: word, v: byte)
    ensures Lo(WithLo(w, v)) == v && Hi(WithLo(w, v)) == Hi(w)
    ensures Hi(WithHi(w, v)) == v && Lo(WithHi(w, v)) == Lo(w)
  {
  }

  lemma ControlBits(v: byte)
    ensures v / 128 * 128 + v % 16 == v - v / 16 % 8 * 16
    ensures v / 128 % 2 == 1 <==> v >= 128
  {
  }

  lemma ZeroBytes()
    ensures Lo(0) == 0 && Hi(0) == 0
  {
  }

  /** The cells one byte is moved between. */
  function SrcCell(c: Channel): (x: Cell)
    ensures Exists(x)
  {
    ResolveTransparent(BankAddr(c.srcBank, c.src))
  }

  function DstCell(c: Channel, stackBank: byte): (x: Cell)
    ensures Exists(x)
  {
    Resolve(BankAddr(c.dstBank, c.dst), stackBank)
  }

  // ------------------------------------------------------------------ one job

  /** The number of bytes a job moves; a count register of 0 means 65536. */
  function Length(c: Channel): nat { if c.lcount == 0 then 0x1_0000 else c.lcount }

  /** A channel that has just been started. */
  predicate Started(c: Channel) { Enabled(c) && Copying(c) && c.count == c.lcount }

  lemma StartStarts(c: Channel, v: byte)
    requires v >= 128
    ensures Started(WriteReg(c, 0, v))
    ensures WriteReg(c, 0, v).copied == if v / 16 % 2 == 1 then 0 else c.copied
  {
  }

  /** What the control bytes in use mean: $94 keeps the source where it is, for taking a sector from the
      drive's data port, $98 the destination, for storing one, and $90 moves both. */
  lemma ControlBytes(c: Channel)
    ensures var r := WriteReg(c, 0, 0x94); Started(r) && r.copied == 0 && SrcFixed(r) && !DstFixed(r)
    ensures var r := WriteReg(c, 0, 0x98); Started(r) && r.copied == 0 && !SrcFixed(r) && DstFixed(r)
    ensures var r := WriteReg(c, 0, 0x90); Started(r) && r.copied == 0 && !SrcFixed(r) && !DstFixed(r)
  {
  }

  /** The state of a started channel when `k` bytes have been moved. */
  function AfterBytes(c: Channel, k: nat): Channel
    requires Started(c) && k <= Length(c)
  {
    c.(copied := Plus(c.copied, k),
    count := Plus(c.lcount, 0x1_0000 - k),
    dst := if DstFixed(c) then c.dst else Plus(c.dst, k),
    src := if SrcFixed(c) then c.src else Plus(c.src, k),
    status := if k < Length(c) then c.status else c.status - 128)
  }

  /** A byte goes between the cells its number determines. */
  lemma CellsOfByte(c: Channel, stackBank: byte, k: nat)
    requires Started(c) && k < Length(c)
    ensures SrcCell(AfterBytes(c, k)) == Source(c, k)
    ensures DstCell(AfterBytes(c, k), stackBank) == Target(c, stackBank, k)
  {
    hide Resolve, ResolveTransparent;
  }

  /** The cycle before the last leaves the copying bit set, the last clears it. */
  lemma AdvanceIsOneMore(c: Channel, k: nat)
    requires Started(c) && k < Length(c)
    ensures Copying(AfterBytes(c, k)) && Enabled(AfterBytes(c, k))
    ensures Advance(AfterBytes(c, k)) == AfterBytes(c, k + 1)
    ensures Copying(AfterBytes(c, k + 1)) <==> k + 1 < Length(c)
  {
    var a := AfterBytes(c, k);
    assert a.count == if c.lcount == 0 && k == 0 then 0 else Length(c) - k;
  }

  /** A cycle of one channel moving bytes between memory cells: nothing unless enabled and copying. */
  function CycleCopy(m: Mem, stackBank: byte, c: Channel): (r: (Mem, Channel))
    requires Sized(m)
    ensures Sized(r.0)
  {
    if Enabled(c) && Copying(c) then
      (Put(m, DstCell(c, stackBank), Get(m, SrcCell(c))), Advance(c))
    else (m, c)
  }

  function Cycles(m: Mem, stackBank: byte, c: Channel, n: nat): (r: (Mem, Channel))
    requires Sized(m)
    ensures Sized(r.0)
  {
    if n == 0 then (m, c)
    else
      var (m', c') := Cycles(m, stackBank, c, n - 1);
      CycleCopy(m', stackBank, c')
  }

  /** The i-th source and destination of a job, with 16-bit wrap within the bank. */
  function Source(c: Channel, i: nat): (x: Cell)
    requires i <= 0x1_0000
    ensures Exists(x)
  {
    ResolveTransparent(BankAddr(c.srcBank, if SrcFixed(c) then c.src else Plus(c.src, i)))
  }

  function Target(c: Channel, stackBank: byte, i: nat): (x: Cell)
    requires i <= 0x1_0000
    ensures Exists(x)
  {
    Resolve(BankAddr(c.dstBank, if DstFixed(c) then c.dst else Plus(c.dst, i)), stackBank)
  }

  /** The wrapping forward byte copy of the first `k` bytes of a job. */
  function Copied(m: Mem, stackBank: byte, c: Channel, k: nat): (r: Mem)
    requires Sized(m) && k <= 0x1_0000
    ensures Sized(r)
  {
    if k == 0 then m
    else
      var m' := Copied(m, stackBank, c, k - 1);
      Put(m', Target(c, stackBank, k - 1), Get(m', Source(c, k - 1)))
  }

  lemma NoBytes(c: Channel)
    requires Started(c)
    ensures AfterBytes(c, 0) == c
  {
  }

  /** Neither end of any byte of the job is an I/O address. */
  predicate MemoryOnly(c: Channel, stackBank: byte) {
    forall i :: 0 <= i < Length(c) ==> !Source(c, i).Port? && !Target(c, stackBank, i).Port?
  }

  /** A started job left alone does the forward copy byte by byte, is still copying before its
      length is reached, and from then on is idle with its registers advanced by the length. */
  lemma {:induction false} JobRuns(m: Mem, stackBank: byte, c: Channel, n: nat)
    requires Sized(m) && Started(c) && MemoryOnly(c, stackBank)
    ensures var k := if n <= Length(c) then n else Length(c);
            Cycles(m, stackBank, c, n) == (Copied(m, stackBank, c, k), AfterBytes(c, k))
    ensures Copying(Cycles(m, stackBank, c, n).1) <==> n < Length(c)
    decreases n
  {
    hide AfterBytes, Advance, Source, Target, SrcCell, DstCell, MemoryOnly, Put, Get;
    if n == 0 {
      NoBytes(c);
    } else {
      JobRuns(m, stackBank, c, n - 1);
      if n <= Length(c) {
        AdvanceIsOneMore(c, n - 1);
        CellsOfByte(c, stackBank, n - 1);
      }
    }
  }

  /** No byte is fetched from a cell an earlier byte of the job was stored in, and no cell is
      stored in twice. */
  predicate NoSelfOverlap(c: Channel, stackBank: byte) {
    && (forall i, j :: 0 <= i < j < Length(c) ==> Target(c, stackBank, i) != Source(c, j))
    && (forall i, j :: 0 <= i < j < Length(c) ==> Target(c, stackBank, i) != Target(c, stackBank, j))
  }

  /** The job moves its block: every target gets what its source held at the start, and every cell
      that is no target keeps its value. */
  ghost predicate BlockMoved(m: Mem, r: Mem, stackBank: byte, c: Channel, k: nat)
    requires Sized(m) && Sized(r) && k <= 0x1_0000
  {
    && (forall i :: 0 <= i < k && Writable(Target(c, stackBank, i)) ==>
                      Get(r, Target(c, stackBank, i)) == Get(m, Source(c, i)))
    && (forall x :: Exists(x) && (forall i :: 0 <= i < k ==> Target(c, stackBank, i) != x) ==>
                      Get(r, x) == Get(m, x))
  }

  lemma {:induction false} CopyIsBlockMove(m: Mem, stackBank: byte, c: Channel, k: nat)
    requires Sized(m) && MemoryOnly(c, stackBank) && NoSelfOverlap(c, stackBank) && k <= Length(c)
    ensures BlockMoved(m, Copied(m, stackBank, c, k), stackBank, c, k)
  {
    hide MemoryOnly, Source, Target, Put, Get;
    if k != 0 {
      var m' := Copied(m, stackBank, c, k - 1);
      CopyIsBlockMove(m, stackBank, c, k - 1);
      assert Get(m', Source(c, k - 1)) == Get(m, Source(c, k - 1));
    }
  }

  /** The banks of RAM, mirrors included, and of video RAM. */
  predicate RamMirror(bank: byte) { bank >= 0x80 && bank % 64 < 16 }

  predicate VramBank(bank: byte) { 0x40 <= bank < 0x48 }

  predicate StorageBank(bank: byte) { RamMirror(bank) || VramBank(bank) }

  /** Two banks that are the same storage. */
  predicate SameStorage(b: byte, c: byte) {
    b % 64 == c % 64 && ((RamMirror(b) && RamMirror(c)) || (VramBank(b) && VramBank(c)))
  }

  /** How far one address of a bank is above another, around the end of the bank. */
  function Above(a: word, b: word): word { if a >= b then a - b else a as int - b + 0x1_0000 }

  lemma InRamBank(bank: byte, a: word)
    requires RamMirror(bank)
    ensures ResolveTransparent(BankAddr(bank, a)) == Ram(bank % 64 * 0x1_0000 + a)
  {
    var x := BankAddr(bank, a);
    assert x / 0x40_0000 == bank / 64 && x % 0x40_0000 == bank % 64 * 0x1_0000 + a;
  }

  lemma InVramBank(bank: byte, a: word)
    requires VramBank(bank)
    ensures ResolveTransparent(BankAddr(bank, a)) == Vram(bank % 64 * 0x1_0000 + a)
  {
    var x := BankAddr(bank, a);
    assert x / 0x40_0000 == 1 && x % 0x40_0000 == bank % 64 * 0x1_0000 + a;
  }

  /** A cell of a storage bank is a cell of another bank only at the same address of the same storage. */
  lemma StorageCells(b: byte, a: word, c: byte, d: word)
    requires StorageBank(b)
    ensures ResolveTransparent(BankAddr(b, a)) == ResolveTransparent(BankAddr(c, d))
       <==> SameStorage(b, c) && a == d
  {
    hide ResolveTransparent;
    if RamMirror(b) {
      InRamBank(b, a);
    } else {
      InVramBank(b, a);
    }
    if RamMirror(c) {
      InRamBank(c, d);
    } else if VramBank(c) {
      InVramBank(c, d);
    } else {
      ElsewhereIsNoStorage(c, d);
    }
  }

  lemma ElsewhereIsNoStorage(c: byte, d: word)
    requires !StorageBank(c)
    ensures var x := ResolveTransparent(BankAddr(c, d)); !x.Ram? && !x.Vram?
  {
    var x := BankAddr(c, d);
    assert x / 0x40_0000 == c / 64 && x % 0x40_0000 == c % 64 * 0x1_0000 + d;
  }

  /** Two steps of a job on advancing addresses meet at the distance of the addresses. */
  lemma StepsMeet(dst: word, src: word, i: nat, j: nat)
    requires i < 0x1_0000 && j < 0x1_0000
    ensures i < j ==> (Plus(dst, i) == Plus(src, j) <==> j - i == Above(dst, src))
    ensures i < j ==> Plus(dst, i) != Plus(dst, j)
  {
  }

  /** A job from any bank to a bank of RAM or video RAM overwrites bytes it has yet to fetch exactly when
      the two are the same storage and the destination is above the source, around the end of the bank,
      by less than the length of the job. */
  lemma OverlapExactly(c: Channel, stackBank: byte)
    requires !DstFixed(c) && !SrcFixed(c) && StorageBank(c.dstBank)
    ensures NoSelfOverlap(c, stackBank)
       <==> !SameStorage(c.dstBank, c.srcBank) || Above(c.dst, c.src) == 0 || Above(c.dst, c.src) >= Length(c)
  {
    hide ResolveTransparent, StorageBank, SameStorage, Above, Plus;
    var gap := Above(c.dst, c.src);
    forall i, j | 0 <= i < j < Length(c)
      ensures Target(c, stackBank, i) == Source(c, j) <==> SameStorage(c.dstBank, c.srcBank) && j - i == gap
      ensures Target(c, stackBank, i) != Target(c, stackBank, j)
    {
      NotInBankZero(c.dstBank, Plus(c.dst, i), stackBank);
      NotInBankZero(c.dstBank, Plus(c.dst, j), stackBank);
      StorageCells(c.dstBank, Plus(c.dst, i), c.srcBank, Plus(c.src, j));
      StorageCells(c.dstBank, Plus(c.dst, i), c.dstBank, Plus(c.dst, j));
      StepsMeet(c.dst, c.src, i, j);
    }
    if SameStorage(c.dstBank, c.srcBank) && 0 < gap < Length(c) {
      assert Target(c, stackBank, 0) == Source(c, gap);
    }
  }

  lemma NotInBankZero(bank: byte, a: word, stackBank: byte)
    requires StorageBank(bank)
    ensures Resolve(BankAddr(bank, a), stackBank) == ResolveTransparent(BankAddr(bank, a))
  {
  }

  /** A copy toward lower addresses of the same storage is safe if it does not wrap. */
  lemma DownwardCopyIsSafe(c: Channel, stackBank: byte)
    requires !DstFixed(c) && !SrcFixed(c) && SameStorage(c.dstBank, c.srcBank)
    requires c.dst <= c.src && c.src + Length(c) <= 0x1_0000
    ensures NoSelfOverlap(c, stackBank)
  {
    hide NoSelfOverlap;
    OverlapExactly(c, stackBank);
  }

  /** A copy from other storage, or between ranges that do not meet, is safe. */
  lemma DisjointCopyIsSafe(c: Channel, stackBank: byte)
    requires !DstFixed(c) && !SrcFixed(c) && StorageBank(c.dstBank)
    requires SameStorage(c.dstBank, c.srcBank) ==>
      && c.dst + Length(c) <= 0x1_0000 && c.src + Length(c) <= 0x1_0000
      && (c.dst + Length(c) <= c.src || c.src + Length(c) <= c.dst)
    ensures NoSelfOverlap(c, stackBank)
  {
    hide NoSelfOverlap;
    OverlapExactly(c, stackBank);
  }
}
