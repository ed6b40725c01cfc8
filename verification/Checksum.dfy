/** The ROM checksum: the tool that writes the last word of the image, and the boot-time loop that
    sums the image through the mirrored ROM banks. */
module Checksum {
  import opened Bytes
  import opened Memory

  /** (C) ELLIPSE DATA */
  const SIGNATURE: seq<byte> :=
    [0x28, 0x43, 0x29, 0x20, 0x45, 0x4C, 0x4C, 0x49, 0x50, 0x53, 0x45, 0x20, 0x44, 0x41, 0x54, 0x41]

  /** A power of two between one and sixteen banks. */
  predicate GoodSize(n: nat) {
    n in {0x1_0000, 0x2_0000, 0x4_0000, 0x8_0000, 0x10_0000}
  }

  /** The sum of the first `k` words, modulo 65536. */
  function SumWords(s: seq<byte>, k: nat): word
    requires 2 * k <= |s|
  {
    if k == 0 then 0 else (SumWords(s, k - 1) + WordAt(s, 2 * (k - 1))) % 0x1_0000
  }

  lemma {:induction false} SumDependsOnPrefix(s: seq<byte>, t: seq<byte>, k: nat)
    requires 2 * k <= |s| && 2 * k <= |t| && s[..2 * k] == t[..2 * k]
    ensures SumWords(s, k) == SumWords(t, k)
    decreases k
  {
    if k > 0 {
      assert s[..2 * k][..2 * (k - 1)] == s[..2 * (k - 1)] && t[..2 * k][..2 * (k - 1)] == t[..2 * (k - 1)];
      SumDependsOnPrefix(s, t, k - 1);
      assert s[2 * (k - 1)] == s[..2 * k][2 * (k - 1)] && s[2 * (k - 1) + 1] == s[..2 * k][2 * (k - 1) + 1];
      assert t[2 * (k - 1)] == t[..2 * k][2 * (k - 1)] && t[2 * (k - 1) + 1] == t[..2 * k][2 * (k - 1) + 1];
    }
  }

  lemma OneMoreWord(s: seq<byte>, k: nat)
    requires 2 * k + 2 <= |s|
    ensures SumWords(s, k + 1) == (SumWords(s, k) + WordAt(s, 2 * k)) % 0x1_0000
    ensures SumWords(s, 0) == 0
  {
  }

  lemma Completes(sum: word, last: word)
    requires last as int == (0xFFFF - sum + 1) % 0x1_0000
    ensures (sum + last) % 0x1_0000 == 0
  {
  }

  /** A last word that is the negated sum of the words before it brings the sum to zero. */
  lemma LastWordCompletes(before: seq<byte>, after: seq<byte>, n: nat, last: word)
    requires |before| == |after| == 2 * n + 2 && after[..2 * n] == before[..2 * n]
    requires after[2 * n] == Lo(last) && after[2 * n + 1] == Hi(last)
    requires last as int == (0xFFFF - SumWords(before, n) + 1) % 0x1_0000
    ensures SumWords(after, n + 1) == 0
  {
    hide SumWords, WordAt;
    WordField(after, 2 * n, last);
    SumDependsOnPrefix(before, after, n);
    Completes(SumWords(before, n), last);
    OneMoreWord(after, n);
  }

  /** The sum of all words but the last, read in pages of 256 bytes. */
  method SumPages(image: array<byte>) returns (sum: word)
    requires image.Length % 2 == 0 && image.Length >= 2
    ensures sum == SumWords(image[..], image.Length / 2 - 1)
  {
    hide SumWords;
    ghost var s := image[..];
    var done, remaining := 0, image.Length - 2;
    ghost var d := 0;
    OneMoreWord(s, 0);
    sum := 0;
    while remaining > 0
      invariant done == 2 * d && done + remaining == image.Length - 2 && remaining >= 0
      invariant sum == SumWords(s, d)
    {
      var reading := if remaining > 256 then 256 else remaining;
      var i := 0;
      ghost var j := 0;
      while i < reading
        invariant i == 2 * j && i <= reading && 2 * (d + j) <= |s|
        invariant sum == SumWords(s, d + j)
      {
        OneMoreWord(s, d + j);
        sum := (sum + Word(image[done + i], image[done + i + 1])) % 0x1_0000;
        i := i + 2;
        j := j + 1;
      }
      done := done + reading;
      d := d + j;
      remaining := remaining - reading;
    }
  }

  /** Replaces the last word of a ROM image so that all its words sum to zero; anything that is not a
      ROM image is left alone. */
  method Recompute(image: array<byte>) returns (ok: bool)
    modifies image
    ensures ok <==> GoodSize(image.Length) && old(image[..16]) == SIGNATURE
    ensures !ok ==> image[..] == old(image[..])
    ensures ok ==> image[..image.Length - 2] == old(image[..image.Length - 2])
    ensures ok ==> SumWords(image[..], image.Length / 2) == 0
  {
    hide SumWords;
    var size := image.Length;
    if !(size == 0x1_0000 || size == 0x2_0000 || size == 0x4_0000 || size == 0x8_0000 || size == 0x10_0000) {
      return false;
    }
    if image[..16] != SIGNATURE {
      return false;
    }
    var sum := SumPages(image);
    ghost var before := image[..];
    var last: word := ((0xFFFF - sum) as int + 1) % 0x1_0000;
    image[size - 2] := Lo(last);
    image[size - 1] := Hi(last);
    ghost var n := size / 2 - 1;
    assert 2 * n + 2 == size;
    assert image[..][..2 * n] == before[..2 * n];
    LastWordCompletes(before, image[..], n, last);
    return true;
  }

  // ------------------------------------------------------------------ the check at boot

  const BANK_WORDS := 0x8000

  function WordNo(s: seq<byte>, i: nat): word
    requires 2 * i + 2 <= |s|
  {
    WordAt(s, 2 * i)
  }

  /** The sum of `c` words from word `lo` on, without wrapping. */
  function Range(s: seq<byte>, lo: nat, c: nat): nat
    requires 2 * (lo + c) <= |s|
  {
    if c == 0 then 0 else Range(s, lo, c - 1) + WordNo(s, lo + c - 1)
  }

  /** The words in column `c` of the first `b` banks. */
  function Row(s: seq<byte>, b: nat, c: nat): nat
    requires |s| == ROM_SIZE && b <= 8 && c < BANK_WORDS
  {
    if b == 0 then 0 else Row(s, b - 1, c) + WordNo(s, (b - 1) * BANK_WORDS + c)
  }

  /** The first `c` columns of the first `b` banks, summed bank by bank. */
  function Columns(s: seq<byte>, b: nat, c: nat): nat
    requires |s| == ROM_SIZE && b <= 8 && c <= BANK_WORDS
  {
    if b == 0 then 0 else Columns(s, b - 1, c) + Range(s, (b - 1) * BANK_WORDS, c)
  }

  /** One more column adds the words of that column in every bank. */
  lemma {:induction false} ColumnMore(s: seq<byte>, b: nat, c: nat)
    requires |s| == ROM_SIZE && b <= 8 && c < BANK_WORDS
    ensures Columns(s, b, c + 1) == Columns(s, b, c) + Row(s, b, c)
    decreases b
  {
    if b > 0 {
      ColumnMore(s, b - 1, c);
    }
  }

  lemma {:induction false} NoColumns(s: seq<byte>, b: nat)
    requires |s| == ROM_SIZE && b <= 8
    ensures Columns(s, b, 0) == 0
    decreases b
  {
    if b > 0 {
      NoColumns(s, b - 1);
    }
  }

  lemma {:induction false} RangeJoin(s: seq<byte>, n: nat, c: nat)
    requires 2 * (n + c) <= |s|
    ensures Range(s, 0, n + c) == Range(s, 0, n) + Range(s, n, c)
    decreases c
  {
    if c > 0 {
      RangeJoin(s, n, c - 1);
    }
  }

  /** Whole banks side by side are the image in order. */
  lemma {:induction false} BanksInOrder(s: seq<byte>, b: nat)
    requires |s| == ROM_SIZE && b <= 8
    ensures Columns(s, b, BANK_WORDS) == Range(s, 0, b * BANK_WORDS)
    decreases b
  {
    if b > 0 {
      BanksInOrder(s, b - 1);
      RangeJoin(s, (b - 1) * BANK_WORDS, BANK_WORDS);
      assert (b - 1) * BANK_WORDS + BANK_WORDS == b * BANK_WORDS;
    }
  }

  lemma WrapAdd(a: nat, w: nat)
    ensures (a % 0x1_0000 + w) % 0x1_0000 == (a + w) % 0x1_0000
  {
  }

  lemma {:induction false} SumIsRange(s: seq<byte>, k: nat)
    requires 2 * k <= |s|
    ensures SumWords(s, k) as int == Range(s, 0, k) % 0x1_0000
    decreases k
  {
    if k > 0 {
      SumIsRange(s, k - 1);
      OneMore(s, k - 1, SumWords(s, k - 1), Range(s, 0, k - 1));
    }
  }

  lemma OneMore(s: seq<byte>, k: nat, sum: word, total: nat)
    requires 2 * k + 2 <= |s|
    requires SumWords(s, k) == sum && Range(s, 0, k) == total && sum as int == total % 0x1_0000
    ensures SumWords(s, k + 1) as int == Range(s, 0, k + 1) % 0x1_0000
  {
    hide SumWords, WordAt;
    OneMoreWord(s, k);
    WrapAdd(total, WordNo(s, k));
  }

  /** A word of ROM read through one of the mirrored banks $08 to $0F. */
  method MirroredWord(mem: MainMemory, b: nat, x: word) returns (w: word)
    requires mem.Valid() && b < 8 && x % 2 == 0
    ensures w == WordNo(mem.rom[..], b * BANK_WORDS + x / 2)
  {
    var a := (8 + b) * 0x1_0000 + x;
    var lo, p := mem.Read(a);
    var hi, q := mem.Read(a + 1);
    assert Resolve(a, mem.stackBank) == Rom(b * 0x1_0000 + x);
    assert Resolve(a + 1, mem.stackBank) == Rom(b * 0x1_0000 + x + 1);
    assert 2 * (b * BANK_WORDS + x / 2) == b * 0x1_0000 + x;
    w := Word(lo, hi);
  }

  /** The boot-time check: for every even offset, the words at that offset of the eight mirrored banks
      are added up, until the offset wraps around to zero. */
  method BootCheck(mem: MainMemory) returns (passed: bool)
    requires mem.Valid()
    ensures passed <==> SumWords(mem.rom[..], ROM_SIZE / 2) == 0
  {
    ghost var s := mem.rom[..];
    var a: word, x: word := 0, 0;
    ghost var c := 0;
    NoColumns(s, 8);
    while true
      invariant x as nat == 2 * c && c < BANK_WORDS && mem.rom[..] == s
      invariant a as nat == Columns(s, 8, c) % 0x1_0000
      decreases BANK_WORDS - c
    {
      var b := 0;
      while b < 8
        invariant 0 <= b <= 8 && mem.rom[..] == s
        invariant a as nat == (Columns(s, 8, c) + Row(s, b, c)) % 0x1_0000
      {
        var w := MirroredWord(mem, b, x);
        WrapAdd(Columns(s, 8, c) + Row(s, b, c), w);
        a := (a + w) % 0x1_0000;
        b := b + 1;
      }
      ColumnMore(s, 8, c);
      c := c + 1;
      x := if x == 0xFFFE then 0 else x + 2;
      if x == 0 {
        break;
      }
    }
    BanksInOrder(s, 8);
    SumIsRange(s, ROM_SIZE / 2);
    passed := a == 0;
  }

  /** A 512 KB image the tool has accepted passes the check when it is the machine's ROM. */
  method RecomputeAndBoot(image: array<byte>, mem: MainMemory) returns (accepted: bool, passed: bool)
    requires mem.Valid() && image.Length == ROM_SIZE && image != mem.rom
    modifies image, mem.rom
    ensures accepted <==> old(image[..16]) == SIGNATURE
    ensures accepted ==> passed
  {
    hide SumWords;
    accepted := Recompute(image);
    ghost var s := image[..];
    forall i | 0 <= i < ROM_SIZE {
      mem.rom[i] := image[i];
    }
    assert mem.rom[..] == s;
    passed := BootCheck(mem);
  }
}
