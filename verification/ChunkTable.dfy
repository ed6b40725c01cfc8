/** The chunk table of an ELFS volume as chains of chunks, and first-fit allocation on it. */
module ChunkTable {
  import opened Bytes

  const FREE: word := 0
  const BAD: word := 0xFFFE
  const END: word := 0xFFFF

  /** A table of at least `n` entries; entry 0 is reserved, chunks 1 to n-1 can be used. */
  predicate Table(t: seq<word>, n: nat) { 1 <= n <= |t| && n < BAD && t[0] == END }

  /** Following the table from the first of the chunks visits them in order and ends there. */
  predicate IsChain(t: seq<word>, n: nat, cs: seq<nat>) {
    && n <= |t| && cs != []
    && (forall i :: 0 <= i < |cs| ==> 1 <= cs[i] < n)
    && (forall i :: 0 <= i < |cs| - 1 ==> t[cs[i]] == cs[i + 1])
    && t[cs[|cs| - 1]] == END
  }

  function Last(cs: seq<nat>): nat
    requires cs != []
  {
    cs[|cs| - 1]
  }

  predicate AllChains(t: seq<word>, n: nat, cc: seq<seq<nat>>) {
    forall i :: 0 <= i < |cc| ==> IsChain(t, n, cc[i])
  }

  predicate Disjoint(cs: seq<nat>, ds: seq<nat>) {
    forall c <- cs :: c !in ds
  }

  predicate AllDisjoint(cc: seq<seq<nat>>) {
    forall i, k :: 0 <= i < |cc| && 0 <= k < |cc| && i != k ==> Disjoint(cc[i], cc[k])
  }

  predicate InSome(cc: seq<seq<nat>>, c: nat) {
    exists i :: 0 <= i < |cc| && c in cc[i]
  }

  /** Every chunk that is neither free nor bad is in one of the chains. */
  predicate Covered(t: seq<word>, n: nat, cc: seq<seq<nat>>)
    requires n <= |t|
  {
    forall c :: 1 <= c < n && t[c] != FREE && t[c] != BAD ==> InSome(cc, c)
  }

  /** The used chunks of a table are exactly partitioned into chains that end. */
  predicate Partition(t: seq<word>, n: nat, cc: seq<seq<nat>>) {
    Table(t, n) && AllChains(t, n, cc) && AllDisjoint(cc) && Covered(t, n, cc)
  }

  /** The least free chunk from `i` on; -1 when there is none. */
  function ScanFree(t: seq<word>, n: nat, i: nat): (r: int)
    requires n <= |t|
    ensures r == -1 ==> forall c :: i <= c < n ==> t[c] != FREE
    ensures r != -1 ==> i <= r < n && t[r] == FREE && forall c :: i <= c < r ==> t[c] != FREE
    decreases n - i
  {
    if i >= n then -1 else if t[i] == FREE then i else ScanFree(t, n, i + 1)
  }

  /** The same for a scan that starts above 0 and gives 0 when there is none. */
  function FirstFree(t: seq<word>, n: nat, i: nat): (r: nat)
    requires 1 <= i && n <= |t|
    ensures r == 0 ==> forall c :: i <= c < n ==> t[c] != FREE
    ensures r != 0 ==> i <= r < n && t[r] == FREE && forall c :: i <= c < r ==> t[c] != FREE
  {
    var r := ScanFree(t, n, i);
    if r == -1 then 0 else r
  }

  /** The table after chunk `f` has been taken, linked after `prev` unless that is 0. */
  function Linked(t: seq<word>, prev: nat, f: nat): (r: seq<word>)
    requires prev < |t| && f < |t| && f < 0x1_0000
    ensures |r| == |t|
  {
    (if prev != 0 then t[prev := f] else t)[f := END]
  }

  lemma UsedIsNotFree(t: seq<word>, n: nat, cs: seq<nat>, c: nat)
    requires IsChain(t, n, cs) && c in cs
    ensures c < n && t[c] != FREE
  {
    var j :| 0 <= j < |cs| && cs[j] == c;
    if j < |cs| - 1 {
      assert t[cs[j]] == cs[j + 1];
    }
  }

  /** Equal entries of a chain are followed by equal rests, so a chain never meets a chunk twice. */
  lemma {:induction false} NoCycle(t: seq<word>, n: nat, cs: seq<nat>, i: nat, j: nat)
    requires IsChain(t, n, cs) && n < BAD && i < j < |cs|
    ensures cs[i] != cs[j]
    decreases |cs| - j
  {
    if j < |cs| - 1 {
      assert t[cs[i]] == cs[i + 1] && t[cs[j]] == cs[j + 1];
      NoCycle(t, n, cs, i + 1, j + 1);
    } else {
      assert t[cs[i]] == cs[i + 1];
    }
  }

  /** Other chains do not see an allocation. */
  lemma ChainKept(t: seq<word>, n: nat, cs: seq<nat>, prev: nat, f: nat)
    requires IsChain(t, n, cs) && prev < |t| && 1 <= f < n < BAD && t[f] == FREE
    requires prev == 0 || prev !in cs
    ensures f !in cs && IsChain(Linked(t, prev, f), n, cs)
  {
    if f in cs {
      UsedIsNotFree(t, n, cs, f);
    }
    forall i | 0 <= i < |cs|
      ensures Linked(t, prev, f)[cs[i]] == t[cs[i]]
    {
      assert cs[i] in cs;
    }
  }

  /** The chain that is extended. */
  lemma ChainExtended(t: seq<word>, n: nat, cs: seq<nat>, f: nat)
    requires IsChain(t, n, cs) && 1 <= f < n < BAD && t[f] == FREE
    ensures IsChain(Linked(t, Last(cs), f), n, cs + [f])
  {
    var t', ds := Linked(t, Last(cs), f), cs + [f];
    forall i | 0 <= i < |cs|
      ensures t'[ds[i]] == ds[i + 1]
    {
      assert cs[i] in cs;
      UsedIsNotFree(t, n, cs, cs[i]);
      if i < |cs| - 1 {
        NoCycle(t, n, cs, i, |cs| - 1);
      }
    }
  }

  lemma StillCovered(t: seq<word>, t': seq<word>, n: nat, cc: seq<seq<nat>>, cc': seq<seq<nat>>, f: nat)
    requires n <= |t| == |t'| && Covered(t, n, cc) && |cc| <= |cc'|
    requires forall i :: 0 <= i < |cc| ==> cc[i] <= cc'[i]
    requires forall c :: 1 <= c < n && c != f && t'[c] != FREE && t'[c] != BAD ==> t[c] != FREE && t[c] != BAD
    requires InSome(cc', f)
    ensures Covered(t', n, cc')
  {
    forall c | 1 <= c < n && t'[c] != FREE && t'[c] != BAD && c != f
      ensures InSome(cc', c)
    {
      var i :| 0 <= i < |cc| && c in cc[i];
      assert c in cc'[i];
    }
  }

  lemma StillDisjoint(cc: seq<seq<nat>>, k: nat, f: nat)
    requires AllDisjoint(cc) && k < |cc| && forall i :: 0 <= i < |cc| && i != k ==> f !in cc[i]
    ensures AllDisjoint(cc[k := cc[k] + [f]])
  {
    var cc' := cc[k := cc[k] + [f]];
    forall i, l | 0 <= i < |cc'| && 0 <= l < |cc'| && i != l
      ensures Disjoint(cc'[i], cc'[l])
    {
      assert Disjoint(cc[i], cc[l]);
      forall c <- cc'[i]
        ensures c !in cc'[l]
      {
        assert c in cc[i] || (i == k && c == f);
      }
    }
  }

  /** Taking a free chunk with no predecessor starts a new chain and keeps all others. */
  lemma NewChain(t: seq<word>, n: nat, cc: seq<seq<nat>>, f: nat)
    requires Partition(t, n, cc) && 1 <= f < n && t[f] == FREE
    ensures Partition(Linked(t, 0, f), n, cc + [[f]])
  {
    var t', cc' := Linked(t, 0, f), cc + [[f]];
    forall i | 0 <= i < |cc|
      ensures IsChain(t', n, cc'[i]) && f !in cc'[i]
    {
      ChainKept(t, n, cc[i], 0, f);
    }
    assert f in cc'[|cc|];
    StillCovered(t, t', n, cc, cc', f);
  }

  lemma StillChains(t: seq<word>, n: nat, cc: seq<seq<nat>>, k: nat, f: nat)
    requires n <= |t| && n < BAD && AllChains(t, n, cc) && AllDisjoint(cc) && 1 <= f < n && t[f] == FREE && k < |cc|
    ensures cc[k] != [] && Last(cc[k]) < n && t[Last(cc[k])] == END
    ensures AllChains(Linked(t, Last(cc[k]), f), n, cc[k := cc[k] + [f]])
    ensures forall i :: 0 <= i < |cc| ==> f !in cc[i]
  {
    var p := Last(cc[k]);
    assert IsChain(t, n, cc[k]) && p in cc[k];
    forall i | 0 <= i < |cc|
      ensures IsChain(Linked(t, p, f), n, cc[k := cc[k] + [f]][i]) && f !in cc[i]
    {
      if i != k {
        assert Disjoint(cc[k], cc[i]);
        ChainKept(t, n, cc[i], p, f);
      } else {
        ChainExtended(t, n, cc[k], f);
        ChainKept(t, n, cc[k], 0, f);
      }
    }
  }

  /** Taking a free chunk after the last chunk of a chain extends that chain by it and keeps all
      others. */
  lemma LongerChain(t: seq<word>, n: nat, cc: seq<seq<nat>>, k: nat, f: nat)
    requires Partition(t, n, cc) && 1 <= f < n && t[f] == FREE && k < |cc|
    ensures Partition(Linked(t, Last(cc[k]), f), n, cc[k := cc[k] + [f]])
  {
    hide AllChains, AllDisjoint;
    var cc' := cc[k := cc[k] + [f]];
    StillChains(t, n, cc, k, f);
    assert f == cc'[k][|cc[k]|] && f in cc'[k];
    StillCovered(t, Linked(t, Last(cc[k]), f), n, cc, cc', f);
    StillDisjoint(cc, k, f);
  }

  /** A chain is determined by its first chunk: readers that follow the table have no choice. */
  lemma {:induction false} ChainUnique(t: seq<word>, n: nat, cs: seq<nat>, ds: seq<nat>)
    requires IsChain(t, n, cs) && IsChain(t, n, ds) && cs[0] == ds[0] && n < BAD
    ensures cs == ds
    decreases |cs|
  {
    OneChunk(t, n, cs);
    OneChunk(t, n, ds);
    if |cs| > 1 {
      assert t[cs[0]] == cs[1] && t[ds[0]] == ds[1];
      ChainTail(t, n, cs);
      ChainTail(t, n, ds);
      ChainUnique(t, n, cs[1..], ds[1..]);
      assert cs == [cs[0]] + cs[1..] && ds == [ds[0]] + ds[1..];
    }
  }

  lemma OneChunk(t: seq<word>, n: nat, cs: seq<nat>)
    requires IsChain(t, n, cs) && n < BAD
    ensures |cs| == 1 <==> t[cs[0]] == END
  {
    if |cs| > 1 {
      assert t[cs[0]] == cs[0 + 1];
    }
  }

  lemma ChainTail(t: seq<word>, n: nat, cs: seq<nat>)
    requires IsChain(t, n, cs) && |cs| > 1
    ensures IsChain(t, n, cs[1..])
  {
    assert Last(cs[1..]) == Last(cs);
  }

  // ------------------------------------------------------------------ free chunks

  /** The number of free chunks from `i` on. */
  function FreeFrom(t: seq<word>, n: nat, i: nat): nat
    requires n <= |t|
    decreases n - i
  {
    if i >= n then 0 else (if t[i] == FREE then 1 else 0) + FreeFrom(t, n, i + 1)
  }

  function FreeCount(t: seq<word>, n: nat): nat
    requires n <= |t|
  {
    FreeFrom(t, n, 1)
  }

  /** Overwriting an entry changes the count by what it was and what it becomes. */
  lemma {:induction false} FreeFromUpdate(t: seq<word>, n: nat, i: nat, c: nat, w: word)
    requires n <= |t| && c < |t|
    ensures FreeFrom(t[c := w], n, i) + (if i <= c < n && t[c] == FREE then 1 else 0)
         == FreeFrom(t, n, i) + (if i <= c < n && w == FREE then 1 else 0)
    decreases n - i
  {
    if i < n {
      FreeFromUpdate(t, n, i + 1, c, w);
    }
  }

  /** An allocation uses up one free chunk. */
  lemma AllocationUsesOne(t: seq<word>, n: nat, prev: nat, f: nat)
    requires n <= |t| && prev < |t| && 1 <= f < n < 0x1_0000 && t[f] == FREE && (prev == 0 || t[prev] != FREE)
    ensures FreeCount(Linked(t, prev, f), n) == FreeCount(t, n) - 1
  {
    var t' := if prev != 0 then t[prev := f] else t;
    if prev != 0 {
      FreeFromUpdate(t, n, 1, prev, f);
    }
    FreeFromUpdate(t', n, 1, f, END);
  }

  lemma {:induction false} FreeFromBound(t: seq<word>, n: nat, i: nat)
    requires n <= |t|
    ensures FreeFrom(t, n, i) <= if i <= n then n - i else 0
    ensures forall c :: i <= c < n && t[c] == FREE ==> FreeFrom(t, n, i) >= 1
    decreases n - i
  {
    if i < n {
      FreeFromBound(t, n, i + 1);
    }
  }

  // ------------------------------------------------------------------ the other allocator

  /** The volume writer's scan from 1 and the DOS scan from 0 take the same chunk exactly when the
      reserved entry 0 is not free. */
  lemma AllocatorsAgree(t: seq<word>, n: nat)
    requires 1 <= n <= |t|
    ensures t[0] != FREE <==> ScanFree(t, n, 0) == (if FirstFree(t, n, 1) == 0 then -1 else FirstFree(t, n, 1))
  {
    var r, f := ScanFree(t, n, 0), FirstFree(t, n, 1);
    if t[0] != FREE && r != -1 && f != 0 {
      assert !(r < f) && !(f < r);
    }
  }

  /** The table after DOS has allocated `k` times, or until nothing was free. */
  function AllocatedTimes(t: seq<word>, n: nat, k: nat): (r: seq<word>)
    requires n <= |t|
    ensures |r| == |t|
  {
    if k == 0 then t else
      var t' := AllocatedTimes(t, n, k - 1);
      var f := ScanFree(t', n, 0);
      if f == -1 then t' else t'[f := END]
  }

  /** `k` allocations take `k` from the count of free entries, as long as there are that many. */
  lemma {:induction false} AllocationsTakeFromCount(t: seq<word>, n: nat, k: nat)
    requires n <= |t|
    ensures FreeFrom(AllocatedTimes(t, n, k), n, 0)
         == if k <= FreeFrom(t, n, 0) then FreeFrom(t, n, 0) - k else 0
    decreases k
  {
    if k > 0 {
      AllocationsTakeFromCount(t, n, k - 1);
      var t' := AllocatedTimes(t, n, k - 1);
      var f := ScanFree(t', n, 0);
      FreeFromBound(t', n, 0);
      if f == -1 {
        NoneFree(t', n, 0);
      } else {
        FreeFromUpdate(t', n, 0, f, END);
      }
    }
  }

  lemma {:induction false} NoneFree(t: seq<word>, n: nat, i: nat)
    requires n <= |t| && forall c :: i <= c < n ==> t[c] != FREE
    ensures FreeFrom(t, n, i) == 0
    decreases n - i
  {
    if i < n {
      NoneFree(t, n, i + 1);
    }
  }
}
