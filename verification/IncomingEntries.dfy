/** Which incoming proofs the bounded queue holds after any calls. An entry is displaced by
    either of two keys, so the queue is not the last 500 of an unbounded one: one call can
    displace two entries and make room that entries dropped before do not come back to. */
module IncomingEntries {
  import opened Collections
  import opened L1Queue

  /** The name the entry of a call goes under. */
  function IdOf(c: IncomingCall): string {
    if c.txId != "" then c.txId else c.l1TxHash
  }

  /** A call with one of the keys of another takes its entry out. */
  predicate Displaces(c: IncomingCall, d: IncomingCall) {
    Asks(c) && (c.l1TxHash == d.l1TxHash || IdOf(c) == IdOf(d))
  }

  /** Call i made an entry, and no later call displaced it. */
  predicate Standing(log: seq<IncomingCall>, i: nat) {
    i < |log| && Asks(log[i]) && forall j :: i < j < |log| ==> !Displaces(log[j], log[i])
  }

  /** The calls after i whose entries stand. */
  function Behind(log: seq<IncomingCall>, i: nat): set<nat> {
    set j: nat | i < j < |log| && Standing(log, j)
  }

  /** The entry of call i stands, and at no moment did 500 entries stand behind it. */
  predicate Kept(log: seq<IncomingCall>, i: nat) {
    Standing(log, i) && forall n :: i < n <= |log| ==> |Behind(log[..n], i)| < 500
  }

  // ---------------------------------------------------------------- the queue by call numbers

  predicate Rising(s: seq<nat>) {
    forall p, q :: 0 <= p < q < |s| ==> s[p] < s[q]
  }

  /** Numbers of calls of the log. */
  predicate Within(log: seq<IncomingCall>, s: seq<nat>) {
    forall p :: 0 <= p < |s| ==> s[p] < |log|
  }

  function Undisplaced(log: seq<IncomingCall>, s: seq<nat>, c: IncomingCall): (r: seq<nat>)
    requires Within(log, s)
    ensures Within(log, r)
    decreases |s|
  {
    if s == [] then []
    else
      var front, last := s[..|s| - 1], s[|s| - 1];
      Undisplaced(log, front, c) + if Displaces(c, log[last]) then [] else [last]
  }

  /** The calls whose entries the queue holds, in order. */
  function Held(log: seq<IncomingCall>): (s: seq<nat>)
    ensures Within(log, s)
    decreases |log|
  {
    if log == [] then []
    else
      var front, c := log[..|log| - 1], log[|log| - 1];
      if Asks(c) then Last(Undisplaced(front, Held(front), c) + [|front|], 500) else Held(front)
  }

  function EntriesOf(log: seq<IncomingCall>, s: seq<nat>): (e: seq<Incoming>)
    requires Within(log, s)
    ensures |e| == |s|
    ensures forall p :: 0 <= p < |s| ==> e[p] == EntryOf(log[s[p]])
  {
    seq(|s|, p requires 0 <= p < |s| => EntryOf(log[s[p]]))
  }

  lemma {:induction false} OthersAreUndisplaced(log: seq<IncomingCall>, s: seq<nat>, c: IncomingCall)
    requires Asks(c) && Within(log, s)
    ensures OthersIncoming(EntriesOf(log, s), c.l1TxHash, IdOf(c)) == EntriesOf(log, Undisplaced(log, s, c))
    decreases |s|
  {
    if s != [] {
      var front := s[..|s| - 1];
      OthersAreUndisplaced(log, front, c);
      assert EntriesOf(log, s)[..|s| - 1] == EntriesOf(log, front);
    }
  }

  lemma EntriesAppended(log: seq<IncomingCall>, s: seq<nat>)
    requires log != [] && Within(log[..|log| - 1], s)
    ensures Within(log, Last(s + [|log| - 1], 500)) && Within(log, s + [|log| - 1])
    ensures EntriesOf(log, Last(s + [|log| - 1], 500))
         == Last(EntriesOf(log[..|log| - 1], s) + [EntryOf(log[|log| - 1])], 500)
  {
    assert EntriesOf(log, s + [|log| - 1]) == EntriesOf(log[..|log| - 1], s) + [EntryOf(log[|log| - 1])];
  }

  /** The queue is the entries of the calls it holds. */
  lemma {:induction false} QueueIsHeld(log: seq<IncomingCall>)
    ensures IncomingQueue(log) == EntriesOf(log, Held(log))
    decreases |log|
  {
    if log != [] {
      var front, c := log[..|log| - 1], log[|log| - 1];
      QueueIsHeld(front);
      if Asks(c) {
        OthersAreUndisplaced(front, Held(front), c);
        EntriesAppended(log, Undisplaced(front, Held(front), c));
        hide Undisplaced, OthersIncoming, EntriesOf, Last;
      } else {
        hide Last;
        assert EntriesOf(log, Held(front)) == EntriesOf(front, Held(front));
      }
    }
  }

  // ---------------------------------------------------------------- which calls those are

  lemma {:induction false} UndisplacedElements(log: seq<IncomingCall>, s: seq<nat>, c: IncomingCall)
    requires Within(log, s)
    ensures forall i :: i in Undisplaced(log, s, c) <==> i in s && !Displaces(c, log[i])
    decreases |s|
  {
    hide Displaces;
    if s != [] {
      var front := s[..|s| - 1];
      UndisplacedElements(log, front, c);
      assert s == front + [s[|s| - 1]];
    }
  }

  lemma {:induction false} UndisplacedRises(log: seq<IncomingCall>, s: seq<nat>, c: IncomingCall)
    requires Within(log, s) && Rising(s)
    ensures Rising(Undisplaced(log, s, c))
    decreases |s|
  {
    hide Displaces;
    if s != [] {
      var front, last := s[..|s| - 1], s[|s| - 1];
      UndisplacedRises(log, front, c);
      UndisplacedElements(log, front, c);
      var r := Undisplaced(log, front, c);
      forall p | 0 <= p < |r| ensures r[p] < last {
        assert r[p] in front;
      }
      RisingAppend(r, last);
      hide Rising;
    }
  }

  lemma RisingAppend(s: seq<nat>, n: nat)
    requires Rising(s) && forall p :: 0 <= p < |s| ==> s[p] < n
    ensures Rising(s + [n])
  {
  }

  lemma {:induction false} RisingSize(s: seq<nat>)
    requires Rising(s)
    ensures |SetOf(s)| == |s|
    decreases |s|
  {
    if s != [] {
      var front, last := s[..|s| - 1], s[|s| - 1];
      RisingSize(front);
      assert SetOf(s) == SetOf(front) + {last};
    }
  }

  function Above(s: seq<nat>, i: nat): set<nat> {
    set j: nat | j in s && j > i
  }

  /** In a rising list the last 500 are those with fewer than 500 above them. */
  lemma LastByCount(s: seq<nat>, i: nat)
    requires Rising(s) && i in s
    ensures i in Last(s, 500) <==> |Above(s, i)| < 500
  {
    var p :| 0 <= p < |s| && s[p] == i;
    RisingSize(s[p + 1..]);
    forall j | j in Above(s, i) ensures j in SetOf(s[p + 1..]) {
      var q :| 0 <= q < |s| && s[q] == j;
      assert q > p;
      assert s[p + 1..][q - p - 1] == j;
    }
    assert Above(s, i) == SetOf(s[p + 1..]);
    if |s| > 500 && p >= |s| - 500 {
      assert Last(s, 500)[p - (|s| - 500)] == i;
    }
  }

  /** One more call: an entry stands if it stood and is not displaced, or is the new one. */
  lemma StandingLast(log: seq<IncomingCall>, i: nat)
    requires log != [] && i < |log|
    ensures var front, c := log[..|log| - 1], log[|log| - 1];
      Standing(log, i) <==> (Standing(front, i) && !Displaces(c, log[i])) || (i == |front| && Asks(c))
  {
    hide Displaces;
  }

  /** What stands behind a kept entry is kept. */
  lemma KeptBehind(log: seq<IncomingCall>, i: nat, j: nat)
    requires Kept(log, i) && j in Behind(log, i)
    ensures Kept(log, j)
  {
    hide Standing;
    forall n | j < n <= |log| ensures |Behind(log[..n], j)| < 500 {
      SubsetSize(Behind(log[..n], j), Behind(log[..n], i));
    }
  }

  lemma KeptLast(log: seq<IncomingCall>, i: nat)
    requires log != [] && i < |log| - 1
    ensures var front, c := log[..|log| - 1], log[|log| - 1];
      Kept(log, i) <==> Kept(front, i) && !Displaces(c, log[i]) && |Behind(log, i)| < 500
  {
    var front := log[..|log| - 1];
    StandingLast(log, i);
    hide Standing, Behind, Displaces;
    assert log[..|log|] == log;
    forall n | i < n <= |front| ensures front[..n] == log[..n] {
    }
    if Kept(log, i) {
      forall n | i < n <= |front| ensures |Behind(front[..n], i)| < 500 {
        assert |Behind(log[..n], i)| < 500;
      }
    }
  }

  /** The calls held are those kept, in order. */
  ghost predicate HoldsKept(log: seq<IncomingCall>) {
    Rising(Held(log)) && forall i: nat :: i in Held(log) <==> Kept(log, i)
  }

  /** What stands behind a call kept so far, one call later. */
  lemma BehindHeld(log: seq<IncomingCall>, i: nat)
    requires log != [] && Asks(log[|log| - 1]) && HoldsKept(log[..|log| - 1]) && Kept(log[..|log| - 1], i)
    ensures var front, c := log[..|log| - 1], log[|log| - 1];
      Behind(log, i) == Above(Undisplaced(front, Held(front), c) + [|front|], i)
  {
    var front, c := log[..|log| - 1], log[|log| - 1];
    var all := Undisplaced(front, Held(front), c) + [|front|];
    UndisplacedElements(front, Held(front), c);
    hide Kept, Displaces, Undisplaced, Held;
    assert i < |front| by { KeptIsCall(front, i); }
    forall j: nat | i < j < |log| ensures j in Behind(log, i) <==> j in all {
      StandingLast(log, j);
      hide Standing;
      if j < |front| {
        if Standing(front, j) {
          KeptBehind(front, i, j);
        } else {
          NotKept(front, j);
        }
        assert log[j] == front[j];
      }
    }
    forall j | j in all ensures j < |log| {
    }
  }

  lemma KeptIsCall(log: seq<IncomingCall>, i: nat)
    requires Kept(log, i)
    ensures i < |log|
  {
  }

  lemma NotKept(log: seq<IncomingCall>, i: nat)
    requires !Standing(log, i)
    ensures !Kept(log, i)
  {
  }

  lemma HeldOne(log: seq<IncomingCall>, i: nat)
    requires log != [] && Asks(log[|log| - 1]) && i < |log| - 1 && HoldsKept(log[..|log| - 1])
    ensures i in Held(log) <==> Kept(log, i)
  {
    var front, c := log[..|log| - 1], log[|log| - 1];
    var kept := Undisplaced(front, Held(front), c);
    var all := kept + [|front|];
    KeptLast(log, i);
    UndisplacedElements(front, Held(front), c);
    UndisplacedRises(front, Held(front), c);
    RisingAppend(kept, |front|);
    assert Held(log) == Last(all, 500);
    assert i in Last(all, 500) ==> i in all;
    hide Kept, Displaces, Undisplaced, Last, Rising;
    if i in kept {
      BehindHeld(log, i);
      LastByCount(all, i);
    }
  }

  lemma HeldStep(log: seq<IncomingCall>, i: nat)
    requires log != [] && i < |log| - 1 && HoldsKept(log[..|log| - 1])
    ensures i in Held(log) <==> Kept(log, i)
  {
    var front, c := log[..|log| - 1], log[|log| - 1];
    if Asks(c) {
      HeldOne(log, i);
    } else {
      KeptLast(log, i);
      QuietBehind(log, i);
    }
  }

  lemma QuietBehind(log: seq<IncomingCall>, i: nat)
    requires log != [] && !Asks(log[|log| - 1]) && i < |log| - 1
    ensures Behind(log, i) == Behind(log[..|log| - 1], i)
    ensures Kept(log[..|log| - 1], i) ==> |Behind(log, i)| < 500
  {
    var front := log[..|log| - 1];
    forall j: nat | i < j < |log| ensures Standing(log, j) <==> Standing(front, j) {
      StandingLast(log, j);
    }
    hide Standing;
    assert front[..|front|] == front;
  }

  lemma NewestHeld(log: seq<IncomingCall>)
    requires log != []
    ensures Kept(log, |log| - 1) <==> Asks(log[|log| - 1])
    ensures |log| - 1 in Held(log) <==> Asks(log[|log| - 1])
  {
    assert log[..|log|] == log;
    assert Behind(log, |log| - 1) == {};
    var front, c := log[..|log| - 1], log[|log| - 1];
    if Asks(c) {
      var all := Undisplaced(front, Held(front), c) + [|front|];
      assert Last(all, 500)[|Last(all, 500)| - 1] == |front|;
    }
  }

  lemma RisingLast(s: seq<nat>)
    requires Rising(s)
    ensures Rising(Last(s, 500))
  {
  }

  lemma HeldRises(log: seq<IncomingCall>)
    requires log != [] && Rising(Held(log[..|log| - 1]))
    ensures Rising(Held(log))
  {
    var front, c := log[..|log| - 1], log[|log| - 1];
    var kept := Undisplaced(front, Held(front), c);
    UndisplacedRises(front, Held(front), c);
    RisingAppend(kept, |front|);
    RisingLast(kept + [|front|]);
    hide Last, Undisplaced, Rising, Displaces;
  }

  /** The incoming queue, exactly: it holds the entries, in the order of their calls, of those calls
      whose entry no later call displaced by either key and which never had 500 standing entries
      behind them. */
  lemma {:induction false} IncomingExactly(log: seq<IncomingCall>)
    ensures IncomingQueue(log) == EntriesOf(log, Held(log)) && HoldsKept(log)
    decreases |log|
  {
    QueueIsHeld(log);
    if log != [] {
      var n := |log| - 1;
      IncomingExactly(log[..n]);
      HeldRises(log);
      NewestHeld(log);
      hide Kept, Rising;
      forall i: nat ensures i in Held(log) <==> Kept(log, i) {
        if i < n {
          HeldStep(log, i);
        } else if i > n && Kept(log, i) {
          KeptIsCall(log, i);
        }
      }
    }
  }

  // ---------------------------------------------------------------- room that stays empty

  function Name(i: nat): string {
    seq(i + 1, _ => 'a')
  }

  function Plain(i: nat): IncomingCall {
    IncomingCall(Name(i), "r", 1.0, "bsc", "")
  }

  /** 501 calls under names of their own, and one under two of those names. */
  function TwoNames(): seq<IncomingCall> {
    seq(501, i requires 0 <= i => Plain(i)) + [IncomingCall(Name(1), "r", 1.0, "bsc", Name(2))]
  }

  lemma NumbersFrom(lo: nat, hi: nat) returns (s: set<nat>)
    requires lo <= hi
    ensures |s| == hi - lo && forall j: nat :: j in s <==> lo <= j < hi
    decreases hi - lo
  {
    if lo == hi {
      s := {};
    } else {
      var rest := NumbersFrom(lo, hi - 1);
      s := rest + {hi - 1};
    }
  }

  lemma TwoNamesCalls()
    ensures |TwoNames()| == 502 && TwoNames()[501] == IncomingCall(Name(1), "r", 1.0, "bsc", Name(2))
    ensures forall j: nat :: j < 501 ==> TwoNames()[j] == Plain(j)
    ensures forall j: nat, k: nat :: j != k ==> Name(j) != Name(k)
    ensures forall j: nat :: Name(j) != ""
  {
    forall j: nat, k: nat | j != k ensures Name(j) != Name(k) {
      assert |Name(j)| == j + 1 && |Name(k)| == k + 1;
    }
    forall j: nat ensures Name(j) != "" {
      assert |Name(j)| == j + 1;
    }
  }

  lemma AllStand(j: nat)
    requires j < 501
    ensures Standing(TwoNames()[..501], j)
    ensures Standing(TwoNames(), j) <==> j != 1 && j != 2
  {
    TwoNamesCalls();
    hide TwoNames, Name;
  }

  lemma FirstDropped()
    ensures !Kept(TwoNames(), 0)
  {
    var log := TwoNames();
    var front := log[..501];
    assert |log| == 502;
    hide TwoNames, Standing;
    var all := NumbersFrom(1, 501);
    forall j: nat | 0 < j < 501 ensures j in Behind(front, 0) {
      AllStand(j);
    }
    assert all <= Behind(front, 0);
    SubsetSize(all, Behind(front, 0));
    hide Behind;
    assert !Kept(log, 0);
  }

  /** The last call displaces two entries, so that the first entry, which no call displaced, has 499
      standing behind it; it was dropped when it had 500, and does not come back. */
  lemma RoomStaysEmpty()
    ensures var log := TwoNames();
      Standing(log, 0) && |Behind(log, 0)| < 500 && 0 !in Held(log)
  {
    var log := TwoNames();
    assert |log| == 502;
    FirstDropped();
    IncomingExactly(log);
    AllStand(0);
    hide TwoNames, Standing, Held, Kept;
    assert 0 !in Held(log);
    hide HoldsKept;
    var rest := NumbersFrom(3, 502);
    forall j | j in Behind(log, 0) ensures j in rest {
      if j < 3 {
        AllStand(j);
      }
    }
    SubsetSize(Behind(log, 0), rest);
  }
}
