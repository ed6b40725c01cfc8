/** File names in DOS: expanding a typed name to the 14 bytes of a directory entry, comparing a typed
    name with an entry, and printing an entry. */
module Names {
  import opened Bytes

  const SPACE: byte := 0x20
  const DOT: byte := 0x2E

  /** A null-terminated string by position. */
  function At(s: seq<byte>, x: nat): byte { if x < |s| then s[x] else 0 }

  function Upper(c: byte): byte { if 0x61 <= c < 0x7B then c - 0x20 else c }

  const SMALL: seq<byte> := [0x61, 0x62, 0x63, 0x64, 0x65, 0x66, 0x67, 0x68, 0x69, 0x6A, 0x6B, 0x6C, 0x6D,
                             0x6E, 0x6F, 0x70, 0x71, 0x72, 0x73, 0x74, 0x75, 0x76, 0x77, 0x78, 0x79, 0x7A]

  const CAPITAL: seq<byte> := [0x41, 0x42, 0x43, 0x44, 0x45, 0x46, 0x47, 0x48, 0x49, 0x4A, 0x4B, 0x4C, 0x4D,
                               0x4E, 0x4F, 0x50, 0x51, 0x52, 0x53, 0x54, 0x55, 0x56, 0x57, 0x58, 0x59, 0x5A]

  /** The 26 small letters become the capital letters of the same place, everything else stays. */
  lemma UpperLetters(c: byte)
    ensures |SMALL| == |CAPITAL| == 26
    ensures forall i :: 0 <= i < 26 ==> Upper(SMALL[i]) == CAPITAL[i]
    ensures c !in SMALL ==> Upper(c) == c
  {
    LettersInOrder();
    assert 0x61 <= c < 0x7B ==> SMALL[c - 0x61] == c;
  }

  lemma LettersInOrder()
    ensures |SMALL| == |CAPITAL| == 26
    ensures forall i :: 0 <= i < 26 ==> SMALL[i] == 0x61 + i && CAPITAL[i] == 0x41 + i
  {
  }

  /** Where the first dot is, or the end of the name. */
  function FirstDot(s: seq<byte>): (d: nat)
    ensures d <= |s| && (d < |s| ==> s[d] == DOT) && forall i :: 0 <= i < d ==> s[i] != DOT
  {
    if s == [] || s[0] == DOT then 0 else 1 + FirstDot(s[1..])
  }

  function Stem(s: seq<byte>): seq<byte> { s[..FirstDot(s)] }

  function Extension(s: seq<byte>): seq<byte> {
    if FirstDot(s) < |s| then s[FirstDot(s) + 1..] else []
  }

  /** Up to ten characters, then optionally a dot and up to three characters that are not dots. */
  predicate Acceptable(s: seq<byte>) {
    |Stem(s)| <= 10 && |Extension(s)| <= 3 && DOT !in Extension(s)
  }

  /** Upper case, padded with spaces to `n` characters. */
  function Padded(s: seq<byte>, n: nat): (r: seq<byte>)
    requires |s| <= n
    ensures |r| == n && forall i :: 0 <= i < n ==> r[i] == if i < |s| then Upper(s[i]) else SPACE
  {
    seq(n, i requires 0 <= i < n => if i < |s| then Upper(s[i]) else SPACE)
  }

  function Expanded(s: seq<byte>): (e: seq<byte>)
    requires Acceptable(s)
    ensures |e| == 14 && e[10] == DOT
  {
    Padded(Stem(s), 10) + [DOT] + Padded(Extension(s), 3)
  }

  /** Expands a name into the first 14 bytes of a buffer and terminates it; an error leaves the
      buffer partly written. */
  method Expand(s: seq<byte>, buf: array<byte>) returns (err: bool)
    requires 0 !in s && buf.Length >= 15
    modifies buf
    ensures err <==> !Acceptable(s)
    ensures !err ==> buf[..14] == Expanded(s) && buf[14] == 0
  {
    ghost var d := FirstDot(s);
    var x, y := 0, 0;
    while y < 14
      invariant 0 <= y <= 14 && x <= |s|
      invariant y <= 10 ==> x == if y < d then y else d
      invariant y > 10 ==> d <= 10 && x == if d + 1 + (y - 11) < |s| then d + 1 + (y - 11) else |s|
      invariant y > 10 ==> buf[10] == DOT && forall j :: d < j < d + 1 + (y - 11) && j < |s| ==> s[j] != DOT
      invariant forall i :: 0 <= i < y && i < 10 ==> buf[i] == if i < d then Upper(s[i]) else SPACE
      invariant forall i :: 11 <= i < y ==>
        buf[i] == if d + 1 + (i - 11) < |s| then Upper(s[d + 1 + (i - 11)]) else SPACE
    {
      if y == 10 {
        if At(s, x) != 0 {
          if At(s, x) != DOT {
            assert |Stem(s)| > 10;
            return true;
          }
          x := x + 1;
        }
        buf[y] := DOT;
      } else if y > 10 {
        if At(s, x) == 0 {
          buf[y] := SPACE;
        } else if At(s, x) == DOT {
          assert Extension(s)[y - 11] == DOT;
          return true;
        } else {
          buf[y] := Upper(s[x]);
          x := x + 1;
        }
      } else {
        if At(s, x) == 0 || At(s, x) == DOT {
          buf[y] := SPACE;
        } else {
          buf[y] := Upper(s[x]);
          x := x + 1;
        }
      }
      y := y + 1;
    }
    if At(s, x) != 0 {
      assert |Extension(s)| > 3;
      return true;
    }
    forall i | 0 <= i < |Extension(s)|
      ensures Extension(s)[i] != DOT
    {
    }
    buf[14] := 0;
    assert buf[..14] == Expanded(s);
    return false;
  }

  // ------------------------------------------------------------------ comparing and printing

  /** A stretch of a name field without its spaces. */
  function Unpadded(e: seq<byte>): seq<byte> {
    if e == [] then [] else (if e[0] == SPACE then [] else [e[0]]) + Unpadded(e[1..])
  }

  /** The name an entry stands for: the dot only if the extension's first character is not blank. */
  function NameOf(e: seq<byte>): seq<byte>
    requires |e| == 14
  {
    Unpadded(e[..10]) + if e[11] == SPACE then [] else [DOT] + Unpadded(e[11..])
  }

  lemma {:induction false} UnpaddedMore(e: seq<byte>, k: nat)
    requires k < |e|
    ensures Unpadded(e[..k + 1]) == Unpadded(e[..k]) + if e[k] == SPACE then [] else [e[k]]
    decreases k
  {
    if k == 0 {
      assert e[..1] == [e[0]] && e[..1][1..] == [];
    } else {
      assert e[..k + 1][1..] == e[1..][..k] && e[..k][1..] == e[1..][..k - 1];
      UnpaddedMore(e[1..], k - 1);
    }
  }

  /** The part of an entry's name the first `y` bytes determine. */
  function NamePrefix(e: seq<byte>, y: nat): seq<byte>
    requires |e| == 14 && y <= 14
  {
    if y <= 10 then Unpadded(e[..y])
    else Unpadded(e[..10]) + if e[11] == SPACE then [] else [DOT] + Unpadded(e[11..y])
  }

  lemma NamePrefixMore(e: seq<byte>, y: nat)
    requires |e| == 14 && y < 14 && y != 10 && (y > 10 ==> e[11] != SPACE)
    ensures NamePrefix(e, y + 1) == NamePrefix(e, y) + if e[y] == SPACE then [] else [e[y]]
  {
    if y < 10 {
      UnpaddedMore(e, y);
    } else {
      UnpaddedMore(e[11..], y - 11);
      assert e[11..][..y - 11] == e[11..y] && e[11..][..y - 11 + 1] == e[11..y + 1];
    }
  }

  /** A typed name begins with the prefix the comparison has walked through, or the comparison is lost. */
  lemma PrefixOfName(e: seq<byte>, y: nat)
    requires |e| == 14 && y <= 14 && (y > 10 ==> e[11] != SPACE)
    ensures NamePrefix(e, y) <= NameOf(e)
    decreases 14 - y
  {
    if y == 14 {
      assert e[11..14] == e[11..];
    } else if y == 10 {
      assert e[11..11] == [];
    } else {
      NamePrefixMore(e, y);
      PrefixOfName(e, y + 1);
    }
  }

  lemma PrefixEnds(e: seq<byte>)
    requires |e| == 14
    ensures NamePrefix(e, 0) == []
    ensures e[11] == SPACE ==> NamePrefix(e, 10) == NameOf(e)
    ensures e[11] != SPACE ==> NamePrefix(e, 11) == NamePrefix(e, 10) + [DOT] && NamePrefix(e, 14) == NameOf(e)
  {
    assert e[11..11] == [] && e[11..14] == e[11..];
  }

  /** Compares a typed name with a directory entry. */
  method Compare(s: seq<byte>, e: seq<byte>) returns (same: bool)
    requires 0 !in s && |e| == 14 && 0 !in e
    ensures same <==> e[10] == DOT && s == NameOf(e)
  {
    hide NamePrefix, NameOf;
    PrefixEnds(e);
    var x, y := 0, 0;
    while true
      invariant 0 <= y <= 14 && x <= |s| && (y > 10 ==> e[10] == DOT && e[11] != SPACE)
      invariant s[..x] == NamePrefix(e, y)
      decreases 14 - y
    {
      PrefixOfName(e, y);
      if y == 10 {
        if e[10] != DOT { return false; }
        if e[11] == SPACE {
          Exactly(s, x, NameOf(e));
          return At(s, x) == 0;
        }
        PrefixOfName(e, 11);
        assert NameOf(e)[x] == DOT;
        if At(s, x) != DOT { return false; }
        Appended(s, x);
        x := x + 1;
        y := y + 1;
      } else if y >= 14 {
        Exactly(s, x, NameOf(e));
        return At(s, x) == 0;
      } else {
        NamePrefixMore(e, y);
        PrefixOfName(e, y + 1);
        if e[y] != SPACE {
          assert e[y] in e;
          if e[y] != At(s, x) {
            assert NameOf(e)[x] == e[y];
            return false;
          }
          Appended(s, x);
          x := x + 1;
        }
        y := y + 1;
      }
    }
  }

  lemma Exactly(s: seq<byte>, x: nat, r: seq<byte>)
    requires 0 !in s && x <= |s| && s[..x] == r
    ensures At(s, x) == 0 <==> s == r
  {
    if x == |s| {
      assert s[..x] == s;
    }
  }

  lemma Appended(s: seq<byte>, x: nat)
    requires x < |s|
    ensures s[..x + 1] == s[..x] + [s[x]]
  {
  }

  /** The names directories hold: a dot at position 10, and others only in the two names that begin
      with dots, of the directory itself and its parent. */
  predicate DotsInPlace(e: seq<byte>)
    requires |e| == 14
  {
    e[10] == DOT && (e[1] == DOT ==> e[0] == DOT) && forall i :: 2 <= i < 14 && i != 10 ==> e[i] != DOT
  }

  /** The name as it is printed: the dot is left out if the extension starts blank, but the extension's
      characters are printed all the same. */
  function Printed(e: seq<byte>): seq<byte>
    requires |e| == 14
  {
    Unpadded(e[..10]) + (if e[11] == SPACE then [] else [DOT]) + Unpadded(e[11..])
  }

  /** The printed name is the one the comparison accepts exactly when an extension that starts blank
      is blank altogether. */
  lemma PrintsTheComparedName(e: seq<byte>)
    requires |e| == 14
    ensures Printed(e) == NameOf(e) <==> (e[11] == SPACE ==> e[12] == SPACE && e[13] == SPACE)
  {
    var x := e[11..];
    assert x[1..] == e[12..] && x[1..][1..] == e[13..] && x[1..][1..][1..] == [];
    assert Unpadded(e[13..]) == if e[13] == SPACE then [] else [e[13]];
    if e[11] == SPACE {
      assert |Printed(e)| == |NameOf(e)| + |Unpadded(x)|;
    } else {
      assert Printed(e) == NameOf(e);
    }
  }

  /** What printing has put out after `y` bytes of an entry. */
  function PrintedPrefix(e: seq<byte>, y: nat): seq<byte>
    requires |e| == 14 && y <= 14
  {
    if y <= 10 then Unpadded(e[..y])
    else Unpadded(e[..10]) + (if e[11] == SPACE then [] else [DOT]) + Unpadded(e[11..y])
  }

  lemma PrintedMore(e: seq<byte>, y: nat)
    requires |e| == 14 && y < 14
    ensures y != 10 ==> PrintedPrefix(e, y + 1) == PrintedPrefix(e, y) + if e[y] == SPACE then [] else [e[y]]
    ensures y == 10 ==> PrintedPrefix(e, y + 1) == PrintedPrefix(e, y) + if e[11] == SPACE then [] else [DOT]
  {
    if y < 10 {
      UnpaddedMore(e, y);
    } else if y > 10 {
      UnpaddedMore(e[11..], y - 11);
      assert e[11..][..y - 11] == e[11..y] && e[11..][..y - 11 + 1] == e[11..y + 1];
    }
  }

  /** For the names directories hold, the dot rules come down to the one dot before the extension. */
  lemma {:induction false} ShownIsPrinted(entry: seq<byte>, y: nat)
    requires |entry| >= 15 && DotsInPlace(entry[..14]) && y <= 14
    ensures Shown(entry, y) == PrintedPrefix(entry[..14], y)
    decreases y
  {
    if y > 0 {
      var e, i := entry[..14], y - 1;
      ShownIsPrinted(entry, i);
      PrintedMore(e, i);
      assert e[i] == entry[i] && e[0] == entry[0] && e[10] == entry[10] && e[11] == entry[11];
    }
  }

  /** A character that is printed: spaces are not, and a dot that is neither the first character nor the
      second of two is only before something other than a space. */
  predicate Kept(entry: seq<byte>, y: nat)
    requires y + 1 < |entry|
  {
    && entry[y] != SPACE
    && (y == 0 || entry[y] != DOT || (y < 2 && entry[0] == DOT) || entry[y + 1] != SPACE)
  }

  /** What is printed for the first `y` bytes of any entry. */
  function Shown(entry: seq<byte>, y: nat): (r: seq<byte>)
    requires y < |entry|
    ensures |r| <= y
  {
    if y == 0 then [] else Shown(entry, y - 1) + if Kept(entry, y - 1) then [entry[y - 1]] else []
  }

  /** Prints the name of a directory entry (given from its name field on) to a buffer. */
  method Compact(entry: seq<byte>, buf: array<byte>) returns (len: nat)
    requires |entry| >= 15 && buf.Length >= 15
    modifies buf
    ensures len <= 14 && buf[..len] == Shown(entry, 14) && buf[len] == 0
    ensures DotsInPlace(entry[..14]) ==> buf[..len] == Printed(entry[..14])
  {
    var x, y := 0, 0;
    while y < 14
      invariant 0 <= y <= 14 && 0 <= x <= y
      invariant buf[..x] == Shown(entry, y)
    {
      var c := entry[y];
      if c != SPACE {
        if y == 0 || c != DOT || (y < 2 && entry[0] == DOT) || entry[y + 1] != SPACE {
          buf[x] := c;
          x := x + 1;
        }
      }
      y := y + 1;
    }
    buf[x] := 0;
    if DotsInPlace(entry[..14]) {
      ShownIsPrinted(entry, 14);
      assert entry[..14][11..14] == entry[..14][11..];
    }
    return x;
  }

  // ------------------------------------------------------------------ typed names

  /** A name in upper case without spaces. */
  predicate Plain(s: seq<byte>) {
    0 !in s && SPACE !in s && forall i :: 0 <= i < |s| ==> Upper(s[i]) == s[i]
  }

  /** The name without a lone dot at its end. */
  function Shortened(s: seq<byte>): seq<byte> {
    if Extension(s) == [] then Stem(s) else s
  }

  function Tail(s: seq<byte>): seq<byte> { if s == [] then [] else s[1..] }

  lemma {:induction false} UnpaddedPadded(s: seq<byte>, n: nat)
    requires |s| <= n && Plain(s)
    ensures Unpadded(Padded(s, n)) == s
    decreases n
  {
    hide Padded, Plain, Tail;
    if n == 0 {
      NothingPadded(s);
    } else {
      PaddedTail(s, n);
      TailIsPlain(s);
      UnpaddedPadded(Tail(s), n - 1);
    }
  }

  lemma NothingPadded(s: seq<byte>)
    requires |s| <= 0
    ensures Padded(s, 0) == s == []
  {
  }

  /** Padding a name pads its tail behind its first character. */
  lemma PaddedTail(s: seq<byte>, n: nat)
    requires |s| <= n && n > 0 && Plain(s)
    ensures |Tail(s)| <= n - 1
    ensures var p := Padded(s, n);
            && p != [] && p[1..] == Padded(Tail(s), n - 1)
            && (if p[0] == SPACE then [] else [p[0]]) + Tail(s) == s
  {
    hide Upper;
    if s != [] {
      assert s[0] in s && Upper(s[0]) == s[0] && s == [s[0]] + s[1..];
    }
  }

  lemma TailIsPlain(s: seq<byte>)
    requires Plain(s)
    ensures Plain(Tail(s))
  {
    hide Plain;
    if s == [] {
      assert s[0..0] == [];
      PlainSlice(s, 0, 0);
    } else {
      assert s[1..|s|] == s[1..];
      PlainSlice(s, 1, |s|);
    }
  }

  lemma PlainSlice(s: seq<byte>, lo: nat, hi: nat)
    requires Plain(s) && lo <= hi <= |s|
    ensures Plain(s[lo..hi])
  {
    forall i | 0 <= i < hi - lo
      ensures s[lo..hi][i] in s && s[lo..hi][i] == s[lo + i]
    {
    }
  }

  lemma Parts(s: seq<byte>)
    ensures FirstDot(s) == |s| ==> Extension(s) == []
    ensures s == if FirstDot(s) < |s| then Stem(s) + [DOT] + Extension(s) else Stem(s)
  {
    hide FirstDot;
    SplitAt(s, FirstDot(s));
  }

  lemma SplitAt(s: seq<byte>, d: nat)
    requires d <= |s|
    ensures d < |s| ==> s == s[..d] + [s[d]] + s[d + 1..]
    ensures d == |s| ==> s == s[..d]
  {
  }

  lemma PlainParts(s: seq<byte>)
    requires Plain(s)
    ensures Plain(Stem(s)) && Plain(Extension(s))
  {
    hide FirstDot, Plain;
    var d := FirstDot(s);
    PlainSlice(s, 0, d);
    assert s[0..d] == Stem(s);
    if d < |s| {
      PlainSlice(s, d + 1, |s|);
      assert s[d + 1..|s|] == Extension(s);
    } else {
      PlainSlice(s, 0, 0);
      assert s[0..0] == Extension(s);
    }
  }

  /** The entry made from a typed name stands for that name. */
  lemma ExpandedName(s: seq<byte>)
    requires Plain(s) && Acceptable(s)
    ensures NameOf(Expanded(s)) == Shortened(s) && Printed(Expanded(s)) == Shortened(s)
  {
    hide FirstDot, Upper, Unpadded, NameOf, Printed, Stem, Extension;
    Parts(s);
    PlainParts(s);
    var p, x := Padded(Stem(s), 10), Padded(Extension(s), 3);
    UnpaddedPadded(Stem(s), 10);
    UnpaddedPadded(Extension(s), 3);
    NameOfParts(Expanded(s), p, x);
    if Extension(s) != [] {
      assert Extension(s)[0] in Extension(s) && x[0] == Extension(s)[0];
      assert Stem(s) + [DOT] + Extension(s) == Stem(s) + ([DOT] + Extension(s));
    }
    assert Stem(s) + [] + [] == Stem(s) + [] == Stem(s);
  }

  lemma NameOfParts(e: seq<byte>, p: seq<byte>, x: seq<byte>)
    requires |p| == 10 && |x| == 3 && e == p + [DOT] + x
    ensures NameOf(e) == Unpadded(p) + if x[0] == SPACE then [] else [DOT] + Unpadded(x)
    ensures Printed(e) == Unpadded(p) + (if x[0] == SPACE then [] else [DOT]) + Unpadded(x)
  {
    hide Unpadded;
    assert e[..10] == p && e[11..] == x && e[11] == x[0];
  }

  lemma {:induction false} FirstDotAppend(t: seq<byte>, rest: seq<byte>)
    requires DOT !in t && (rest == [] || rest[0] == DOT)
    ensures FirstDot(t + rest) == |t|
    decreases |t|
  {
    if t == [] {
      assert t + rest == rest;
    } else {
      assert t[0] in t && (t + rest)[0] == t[0] && (t + rest)[1..] == t[1..] + rest;
      FirstDotAppend(t[1..], rest);
    }
  }

  /** The shortened name expands to the same 14 bytes. */
  lemma ShortenedExpands(s: seq<byte>)
    requires Acceptable(s)
    ensures Acceptable(Shortened(s)) && Expanded(Shortened(s)) == Expanded(s)
  {
    if Extension(s) == [] {
      var t := Stem(s);
      FirstDotAppend(t, []);
      assert t + [] == t && Stem(t) == t && Extension(t) == [];
    }
  }

  /** Typing, storing, finding and printing a name agree: the entry made from a plain name is found by
      exactly one typed name, that name is the one printed, and typing the printed name makes the same
      entry again. */
  lemma NamesRoundTrip(s: seq<byte>, r: seq<byte>)
    requires Plain(s) && Acceptable(s)
    ensures var e := Expanded(s);
            && (e[10] == DOT && r == NameOf(e) <==> r == Shortened(s))
            && Printed(e) == Shortened(s)
            && Acceptable(Printed(e)) && Expanded(Printed(e)) == e
  {
    ExpandedName(s);
    ShortenedExpands(s);
  }

  /** An expanded name has its one dot where directories have it. */
  lemma ExpandedDots(s: seq<byte>)
    requires Acceptable(s)
    ensures DotsInPlace(Expanded(s))
  {
    hide FirstDot, Upper;
    var e := Expanded(s);
    forall i | 0 <= i < 14 && i != 10
      ensures e[i] != DOT
    {
      if i < |Stem(s)| {
        NoDotAbove(Stem(s)[i]);
      } else if 11 <= i < 11 + |Extension(s)| {
        assert Extension(s)[i - 11] in Extension(s);
        NoDotAbove(Extension(s)[i - 11]);
      }
    }
  }

  lemma NoDotAbove(c: byte)
    ensures Upper(c) == DOT ==> c == DOT
  {
  }

  /** A name without null characters has an entry without any. */
  lemma ExpandedHasNoNull(s: seq<byte>)
    requires Acceptable(s) && 0 !in s
    ensures 0 !in Expanded(s)
  {
    hide FirstDot, Upper;
    var e := Expanded(s);
    forall i | 0 <= i < 14
      ensures e[i] != 0
    {
      if i < |Stem(s)| {
        assert Stem(s)[i] in s;
        NoNullAbove(Stem(s)[i]);
      } else if 11 <= i < 11 + |Extension(s)| {
        assert Extension(s)[i - 11] in s;
        NoNullAbove(Extension(s)[i - 11]);
      }
    }
  }

  lemma NoNullAbove(c: byte)
    ensures Upper(c) == 0 ==> c == 0
  {
  }

  /** A typed name makes an entry, the entry is looked up under any other name, printed, and the printed
      name is typed again: the lookup succeeds for one name only, that name is the one printed, and
      the second entry is the first one. */
  method ExpandFindPrintExpand(s: seq<byte>, r: seq<byte>, entry: array<byte>, name: array<byte>, again: array<byte>)
    returns (err: bool, found: bool)
    requires Plain(s) && 0 !in r
    requires entry.Length == name.Length == again.Length == 15 && entry != name && entry != again && name != again
    modifies entry, name, again
    ensures err <==> !Acceptable(s)
    ensures !err ==> (found <==> r == Shortened(s))
    ensures !err ==> |Shortened(s)| <= 14 && name[..|Shortened(s)|] == Shortened(s) && name[|Shortened(s)|] == 0
    ensures !err ==> again[..] == entry[..] && entry[..14] == Expanded(s) && entry[14] == 0
  {
    hide Plain, Acceptable, Expanded, Shortened, Printed, NameOf, DotsInPlace, Shown;
    found := false;
    PlainHasNoNull(s);
    err := Expand(s, entry);
    if err {
      return;
    }
    NamesRoundTrip(s, r);
    ExpandedDots(s);
    ExpandedHasNoNull(s);
    found := Compare(r, entry[..14]);
    err := PrintAndExpand(s, entry[..], name, again);
    assert again[..] == again[..14] + [again[14]] && entry[..] == entry[..14] + [entry[14]];
  }

  /** Printing the entry of a name and expanding what was printed. */
  method PrintAndExpand(s: seq<byte>, entry: seq<byte>, name: array<byte>, again: array<byte>) returns (err: bool)
    requires Plain(s) && Acceptable(s) && |entry| == 15 && entry[..14] == Expanded(s)
    requires name.Length == again.Length == 15 && name != again
    modifies name, again
    ensures !err && again[..14] == entry[..14] && again[14] == 0
    ensures |Shortened(s)| <= 14 && name[..|Shortened(s)|] == Shortened(s) && name[|Shortened(s)|] == 0
  {
    hide Plain, Acceptable, Expanded, Shortened, Printed, NameOf, DotsInPlace, Shown;
    NamesRoundTrip(s, []);
    ExpandedDots(s);
    var len := Compact(entry, name);
    PlainHasNoNull(s);
    ShortenedHasNoNull(s);
    err := Expand(name[..len], again);
  }

  lemma PlainHasNoNull(s: seq<byte>)
    requires Plain(s)
    ensures 0 !in s
  {
  }

  lemma ShortenedHasNoNull(s: seq<byte>)
    requires 0 !in s
    ensures 0 !in Shortened(s)
  {
    hide FirstDot;
    assert forall c :: c in Stem(s) ==> c in s;
  }

  // ------------------------------------------------------------------ blank extensions

  /** An entry whose extension is blank at first and then not: found as "A", printed as "AX". */
  lemma BlankThenNot()
    ensures var e := [0x41] + seq(9, _ => SPACE) + [DOT, SPACE, 0x58, SPACE];
            NameOf(e) == [0x41] && Printed(e) == [0x41, 0x58]
  {
    var e := [0x41] + seq(9, _ => SPACE) + [DOT, SPACE, 0x58, SPACE];
    assert e[..10][0] == 0x41 && e[..10][1..] == seq(9, _ => SPACE) && e[11..] == [SPACE, 0x58, SPACE];
    AllSpaces(9);
    assert Unpadded(e[..10]) == [0x41] + Unpadded(e[..10][1..]) == [0x41];
    BlankXBlank();
  }

  lemma BlankXBlank()
    ensures Unpadded([SPACE, 0x58, SPACE]) == [0x58]
  {
    var x: seq<byte> := [SPACE, 0x58, SPACE];
    assert x[1..] == [0x58, SPACE] && x[1..][1..] == [SPACE] && x[1..][1..][1..] == [];
    assert Unpadded([SPACE]) == [];
    assert Unpadded([0x58, SPACE]) == [0x58] + Unpadded([SPACE]);
  }

  lemma {:induction false} AllSpaces(n: nat)
    ensures Unpadded(seq(n, _ => SPACE)) == []
    decreases n
  {
    if n > 0 {
      assert seq(n, _ => SPACE)[1..] == seq(n - 1, _ => SPACE);
      AllSpaces(n - 1);
    }
  }

  /** No typed name makes such an entry unless it has a space in it: the printed name and the accepted
      name of every expanded name without spaces are the same. */
  lemma TypedNamesPrintAsFound(s: seq<byte>)
    requires Acceptable(s) && SPACE !in s
    ensures Printed(Expanded(s)) == NameOf(Expanded(s))
  {
    hide FirstDot, Upper, Printed, NameOf;
    PrintsTheComparedName(Expanded(s));
    if Extension(s) != [] {
      assert Extension(s)[0] in s;
      NoSpaceAbove(Extension(s)[0]);
    }
  }

  lemma NoSpaceAbove(c: byte)
    ensures Upper(c) == SPACE ==> c == SPACE
  {
  }
}
