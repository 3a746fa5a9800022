/** Stable sorting of pool entries by fee, as Python's sorted() does it in
    blockchain/mempool.py (lines 282-287 and 347), and what depends only on fees. */
module FeeOrder {

  datatype Tx = Tx(hash: string, fromAddr: string, toAddr: string, amount: real, fee: real,
                   nonce: int, signature: string, publicKey: string, data: string, gas: int)

  function Fees(s: seq<Tx>): (f: seq<real>)
    ensures |f| == |s|
    ensures forall i :: 0 <= i < |s| ==> f[i] == s[i].fee
  {
    seq(|s|, i requires 0 <= i < |s| => s[i].fee)
  }

  predicate Descending(f: seq<real>) {
    forall i, j :: 0 <= i < j < |f| ==> f[i] >= f[j]
  }

  /** a may stand before b. */
  predicate Before(a: real, b: real, ascending: bool) {
    if ascending then a <= b else a >= b
  }

  /** Inserts after every entry that must not come later, so equals keep their order. */
  function Insert(s: seq<Tx>, t: Tx, ascending: bool): seq<Tx>
    decreases |s|
  {
    if s == [] then [t]
    else
      var last := s[|s| - 1];
      if Before(last.fee, t.fee, ascending) then s + [t]
      else Insert(s[..|s| - 1], t, ascending) + [last]
  }

  /** sorted(s, key=fee), or with reverse=True, both stable. */
  function Sorted(s: seq<Tx>, ascending: bool): seq<Tx>
    decreases |s|
  {
    if s == [] then [] else Insert(Sorted(s[..|s| - 1], ascending), s[|s| - 1], ascending)
  }

  lemma {:induction false} InsertKeeps(s: seq<Tx>, t: Tx, ascending: bool)
    ensures multiset(Insert(s, t, ascending)) == multiset(s) + multiset{t}
    decreases |s|
  {
    if s != [] {
      assert s == s[..|s| - 1] + [s[|s| - 1]];
      InsertKeeps(s[..|s| - 1], t, ascending);
    }
  }

  predicate InOrder(s: seq<Tx>, ascending: bool) {
    forall i, j :: 0 <= i < j < |s| ==> Before(s[i].fee, s[j].fee, ascending)
  }

  lemma {:induction false} InsertSorted(s: seq<Tx>, t: Tx, ascending: bool)
    requires InOrder(s, ascending)
    ensures InOrder(Insert(s, t, ascending), ascending)
    decreases |s|
  {
    if s != [] {
      var front, last := s[..|s| - 1], s[|s| - 1];
      if !Before(last.fee, t.fee, ascending) {
        InsertSorted(front, t, ascending);
        InsertKeeps(front, t, ascending);
        var r := Insert(front, t, ascending);
        forall i | 0 <= i < |r| ensures Before(r[i].fee, last.fee, ascending) {
          assert r[i] in multiset(r);
          assert r[i] == t || r[i] in front;
        }
      }
    }
  }

  lemma {:induction false} SortedSorts(s: seq<Tx>, ascending: bool)
    ensures InOrder(Sorted(s, ascending), ascending)
    ensures multiset(Sorted(s, ascending)) == multiset(s)
    decreases |s|
  {
    if s != [] {
      var front, last := s[..|s| - 1], s[|s| - 1];
      assert s == front + [last];
      SortedSorts(front, ascending);
      InsertSorted(Sorted(front, ascending), last, ascending);
      InsertKeeps(Sorted(front, ascending), last, ascending);
    }
  }

  lemma WithoutAt(t: seq<Tx>, j: nat) returns (rest: seq<Tx>)
    requires j < |t|
    ensures multiset(t) == multiset(rest) + multiset{t[j]}
    ensures multiset(Fees(t)) == multiset(Fees(rest)) + multiset{t[j].fee}
  {
    rest := t[..j] + t[j + 1..];
    assert t == t[..j] + [t[j]] + t[j + 1..];
    assert Fees(t) == Fees(t[..j]) + [t[j].fee] + Fees(t[j + 1..]);
    assert Fees(rest) == Fees(t[..j]) + Fees(t[j + 1..]);
  }

  /** The fees of s as a multiset depend only on the entries of s as a multiset. */
  lemma {:induction false} FeesOfPermutation(s: seq<Tx>, t: seq<Tx>)
    requires multiset(s) == multiset(t)
    ensures |s| == |t| && multiset(Fees(s)) == multiset(Fees(t))
    decreases |s|
  {
    SameSize(s, t);
    if s != [] {
      assert s[0] in multiset(t);
      var j :| 0 <= j < |t| && t[j] == s[0];
      var front := WithoutAt(s, 0);
      var rest := WithoutAt(t, j);
      Cancel(multiset(front), multiset(rest), s[0]);
      assert |multiset(s)| == |s| && |multiset(front)| == |front|;
      FeesOfPermutation(front, rest);
    }
  }

  lemma Cancel<T>(x: multiset<T>, y: multiset<T>, e: T)
    requires x + multiset{e} == y + multiset{e}
    ensures x == y
  {
    assert x == x + multiset{e} - multiset{e};
    assert y == y + multiset{e} - multiset{e};
  }

  lemma LastIsLeast(a: seq<real>, x: real)
    requires a != [] && Descending(a) && x in multiset(a)
    ensures a[|a| - 1] <= x
  {
    var j :| 0 <= j < |a| && a[j] == x;
  }

  lemma SplitLast<T>(a: seq<T>, front: seq<T>, last: T)
    requires a == front + [last]
    ensures multiset(a) == multiset(front) + multiset{last}
    ensures |a| == |front| + 1 && last in multiset(a)
  {
  }

  lemma SameSize<T>(a: seq<T>, b: seq<T>)
    requires multiset(a) == multiset(b)
    ensures |a| == |b|
  {
    assert |multiset(a)| == |a| && |multiset(b)| == |b|;
  }

  /** A descending sequence is determined by its multiset. */
  lemma {:induction false} DescendingUnique(a: seq<real>, b: seq<real>)
    requires Descending(a) && Descending(b) && multiset(a) == multiset(b)
    ensures a == b
    decreases |a|
  {
    SameSize(a, b);
    if a != [] {
      var fa, fb, x, y := a[..|a| - 1], b[..|b| - 1], a[|a| - 1], b[|b| - 1];
      SplitLast(a, fa, x);
      SplitLast(b, fb, y);
      LastIsLeast(a, y);
      LastIsLeast(b, x);
      Cancel(multiset(fa), multiset(fb), x);
      DescendingUnique(fa, fb);
    }
  }

  function Reverse<T>(s: seq<T>): (r: seq<T>)
    ensures |r| == |s|
    ensures forall i :: 0 <= i < |s| ==> r[i] == s[|s| - 1 - i]
  {
    seq(|s|, i requires 0 <= i < |s| => s[|s| - 1 - i])
  }

  lemma {:induction false} ReverseSameMultiset(s: seq<real>)
    ensures multiset(Reverse(s)) == multiset(s)
    decreases |s|
  {
    if s != [] {
      var front, last := s[..|s| - 1], s[|s| - 1];
      ReverseSameMultiset(front);
      assert s == front + [last];
      assert Reverse(s) == [last] + Reverse(front);
    }
  }

  /** Sorting down and sorting up give mirrored fee sequences. */
  lemma SortsMirror(s: seq<Tx>)
    ensures Fees(Sorted(s, false)) == Reverse(Fees(Sorted(s, true)))
  {
    SortedSorts(s, true);
    SortedMirrors(s, Sorted(s, true));
  }

  /** Dropping the k cheapest leaves the top of the order as it was: the fees of the
      rest, sorted down, are a prefix of the fees of all, sorted down. */
  lemma CheapestDropped(all: seq<Tx>, kept: seq<Tx>, k: nat)
    requires k <= |all|
    requires |Sorted(all, true)| == |all| && multiset(kept) == multiset(Sorted(all, true)[k..])
    ensures |kept| == |all| - k
    ensures |Sorted(kept, false)| == |kept| && |Sorted(all, false)| == |all|
    ensures Fees(Sorted(kept, false)) == Fees(Sorted(all, false))[..|all| - k]
  {
    hide Sorted, InOrder;
    var up, top := Sorted(all, true), Sorted(all, true)[k..];
    SortedSorts(all, true);
    SortedSorts(all, false);
    SortedSorts(kept, false);
    SameSize(Sorted(all, false), all);
    SameSize(Sorted(kept, false), kept);
    SameSize(kept, top);
    SortsMirror(all);
    TopInOrder(up, k);
    SortedMirrors(kept, top);
    ReverseOfTop(up, k);
  }

  lemma TopInOrder(up: seq<Tx>, k: nat)
    requires InOrder(up, true) && k <= |up|
    ensures InOrder(up[k..], true)
  {
    hide Before;
    var top := up[k..];
    forall i, j | 0 <= i < j < |top| ensures Before(top[i].fee, top[j].fee, true) {
      assert Before(up[k + i].fee, up[k + j].fee, true);
    }
  }

  /** Sorted down, the fees of a permutation of an ascending sequence are its mirror. */
  lemma SortedMirrors(kept: seq<Tx>, top: seq<Tx>)
    requires multiset(kept) == multiset(top) && InOrder(top, true)
    ensures Fees(Sorted(kept, false)) == Reverse(Fees(top))
  {
    hide Sorted;
    var down := Sorted(kept, false);
    SortedSorts(kept, false);
    FeesOfPermutation(down, top);
    ReverseSameMultiset(Fees(top));
    assert Descending(Fees(down)) && Descending(Reverse(Fees(top)));
    DescendingUnique(Fees(down), Reverse(Fees(top)));
  }

  lemma ReverseOfTop(up: seq<Tx>, k: nat)
    requires k <= |up|
    ensures Reverse(Fees(up))[..|up| - k] == Reverse(Fees(up[k..]))
  {
  }

  /** [f for f in fees if f >= floor] */
  function AtLeast(f: seq<real>, floor: real): seq<real>
    decreases |f|
  {
    if f == [] then []
    else AtLeast(f[..|f| - 1], floor) + (if f[|f| - 1] >= floor then [f[|f| - 1]] else [])
  }

  function Take<T>(s: seq<T>, limit: nat): seq<T> {
    if limit < |s| then s[..limit] else s
  }

  /** On a descending sequence the filter is a cut. */
  lemma {:induction false} AtLeastIsPrefix(f: seq<real>, floor: real)
    requires Descending(f)
    ensures AtLeast(f, floor) <= f
    ensures |AtLeast(f, floor)| < |f| ==> f[|AtLeast(f, floor)|] < floor
    ensures forall i :: 0 <= i < |AtLeast(f, floor)| ==> f[i] >= floor
    decreases |f|
  {
    if f != [] {
      var front, last := f[..|f| - 1], f[|f| - 1];
      assert f == front + [last];
      AtLeastIsPrefix(front, floor);
    }
  }

  /** Filtering and limiting look only at the top. */
  lemma TopOfPrefix(f: seq<real>, m: nat, floor: real, limit: nat)
    requires Descending(f) && limit <= m <= |f|
    ensures Take(AtLeast(f[..m], floor), limit) == Take(AtLeast(f, floor), limit)
  {
    AtLeastIsPrefix(f, floor);
    AtLeastIsPrefix(f[..m], floor);
    var a, b := AtLeast(f, floor), AtLeast(f[..m], floor);
    if |b| < m {
      assert f[|b|] < floor;
      assert |a| <= |b|;
    }
  }
}
