/** Bytes, 16-bit words and in-place replacement of a stretch of a byte sequence. */
module Bytes {

  type byte = x: int | 0 <= x < 0x100
  type word = x: int | 0 <= x < 0x1_0000

  function Lo(w: word): byte { w % 256 }

  function Hi(w: word): byte { w / 256 }

  function Word(lo: byte, hi: byte): word { lo + 256 * hi }

  /** A word with one of its bytes replaced. */
  function WithLo(w: word, v: byte): word { w / 256 * 256 + v }

  function WithHi(w: word, v: byte): word { w % 256 + v * 256 }

  lemma BothBytes(x: word, w: word)
    ensures WithHi(WithLo(x, Lo(w)), Hi(w)) == w
  {
  }

  /** A 16-bit register advanced by up to a whole bank. */
  function Plus(w: word, k: nat): word
    requires k <= 0x1_0000
  {
    if w + k < 0x1_0000 then w + k else w + k - 0x1_0000
  }

  /** The little-endian word stored at an offset. */
  function WordAt(s: seq<byte>, off: nat): word
    requires off + 2 <= |s|
  {
    Word(s[off], s[off + 1])
  }

  /** The little-endian double word stored at an offset. */
  function LongAt(s: seq<byte>, off: nat): nat
    requires off + 4 <= |s|
  {
    s[off] as int + 0x100 * s[off + 1] as int + 0x1_0000 * s[off + 2] as int + 0x100_0000 * s[off + 3] as int
  }

  function WordBytes(w: word): (bs: seq<byte>)
    ensures |bs| == 2
  {
    [Lo(w), Hi(w)]
  }

  function LongBytes(n: nat): (bs: seq<byte>)
    requires n < 0x1_0000_0000
    ensures |bs| == 4
  {
    var n1 := n / 0x100;
    var n2 := n1 / 0x100;
    [n % 0x100, n1 % 0x100, n2 % 0x100, n2 / 0x100]
  }

  /** The four bytes of a double word are what it is read back from. */
  lemma LongBytesOf(s: seq<byte>, off: nat)
    requires off + 4 <= |s|
    ensures LongAt(s, off) < 0x1_0000_0000
    ensures LongBytes(LongAt(s, off)) == s[off..off + 4]
  {
    var n, n2 := LongAt(s, off), s[off + 2] + 0x100 * s[off + 3] as int;
    var n1 := s[off + 1] + 0x100 * n2;
    assert n == s[off] + 0x100 * n1;
    assert n / 0x100 == n1 && n % 0x100 == s[off];
    assert n1 / 0x100 == n2 && n1 % 0x100 == s[off + 1];
  }

  lemma LongAtBytes(n: nat)
    requires n < 0x1_0000_0000
    ensures LongAt(LongBytes(n), 0) == n
  {
  }

  /** Fields given byte by byte. */
  lemma WordField(s: seq<byte>, off: nat, w: word)
    requires off + 2 <= |s| && s[off] == Lo(w) && s[off + 1] == Hi(w)
    ensures WordAt(s, off) == w
  {
  }

  lemma LongField(s: seq<byte>, off: nat, n: nat)
    requires off + 4 <= |s| && n < 0x1_0000_0000 && s[off..off + 4] == LongBytes(n)
    ensures LongAt(s, off) == n
  {
    LongAtBytes(n);
    assert LongAt(s, off) == LongAt(s[off..off + 4], 0);
  }

  /** The sequence with the bytes from `off` on replaced by `bs`. */
  function Splice(s: seq<byte>, off: nat, bs: seq<byte>): (r: seq<byte>)
    requires off + |bs| <= |s|
    ensures |r| == |s|
    ensures forall i :: 0 <= i < |s| ==> r[i] == if off <= i < off + |bs| then bs[i - off] else s[i]
  {
    s[..off] + bs + s[off + |bs|..]
  }

  lemma SliceOfSlice(s: seq<byte>, a: nat, b: nat, c: nat, d: nat)
    requires a <= b <= |s| && c <= d <= b - a
    ensures s[a..b][c..d] == s[a + c..a + d]
  {
    var t := s[a..b];
    forall i | 0 <= i < d - c ensures t[c..d][i] == s[a + c..a + d][i] {
      assert t[c..d][i] == t[c + i] == s[a + (c + i)];
    }
    assert t[c..d] == s[a + c..a + d];
  }

  /** Writing back what is there changes nothing. */
  lemma SpliceSelf(s: seq<byte>, off: nat, n: nat)
    requires off + n <= |s|
    ensures Splice(s, off, s[off..off + n]) == s
  {
  }

  /** The later of two writes to the same place is the one that stays. */
  lemma SpliceTwice(s: seq<byte>, off: nat, bs: seq<byte>, cs: seq<byte>)
    requires |bs| == |cs| && off + |bs| <= |s|
    ensures Splice(Splice(s, off, bs), off, cs) == Splice(s, off, cs)
  {
  }

  /** A splice is invisible in every stretch it does not meet. */
  lemma SpliceElsewhere(s: seq<byte>, off: nat, bs: seq<byte>, lo: nat, hi: nat)
    requires off + |bs| <= |s| && lo <= hi <= |s|
    requires hi <= off || off + |bs| <= lo
    ensures Splice(s, off, bs)[lo..hi] == s[lo..hi]
  {
  }

  /** A splice inside a stretch is a splice of that stretch. */
  lemma SpliceWithin(s: seq<byte>, off: nat, bs: seq<byte>, lo: nat, hi: nat)
    requires lo <= off && off + |bs| <= hi <= |s|
    ensures Splice(s, off, bs)[lo..hi] == Splice(s[lo..hi], off - lo, bs)
  {
  }

  /** The words of an even-length stretch of bytes. */
  function Words(s: seq<byte>): (ws: seq<word>)
    requires |s| % 2 == 0
    ensures |ws| == |s| / 2
    ensures forall i :: 0 <= i < |ws| ==> ws[i] == WordAt(s, 2 * i)
  {
    seq(|s| / 2, i requires 0 <= i < |s| / 2 => WordAt(s, 2 * i))
  }

  /** Storing a word's two bytes updates one word. */
  lemma WordsSplice(s: seq<byte>, i: nat, w: word)
    requires |s| % 2 == 0 && i < |s| / 2
    ensures Words(Splice(s, 2 * i, WordBytes(w))) == Words(s)[i := w]
  {
    var t := Splice(s, 2 * i, WordBytes(w));
    forall j | 0 <= j < |s| / 2
      ensures Words(t)[j] == Words(s)[i := w][j]
    {
      assert Words(t)[j] == WordAt(t, 2 * j);
    }
  }

  /** A word of a stretch is a word of the whole. */
  lemma SliceWord(bs: seq<byte>, lo: nat, hi: nat, k: nat)
    requires lo + k + 2 <= hi <= |bs|
    ensures WordAt(bs, lo + k) == WordAt(bs[lo..hi], k)
  {
  }

  lemma Joined(bs: seq<byte>, a: nat, b: nat, c: nat)
    requires a <= b <= c <= |bs|
    ensures bs[a..b] + bs[b..c] == bs[a..c]
  {
  }
}
