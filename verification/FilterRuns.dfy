/** Exactly-once delivery over whole runs of the filter store: other filters come and
    go, the tip moves any way it likes, queries may fail, and polls may use any spelling
    of the id. */
module FilterRuns {
  import opened Wrappers
  import opened Collections
  import opened Text
  import opened Filters

  datatype Event =
    | NewLogs(now: int, filter: Criteria, chain: Option<Chain>)
    | NewBlocks(now: int, chain: Option<Chain>)
    | NewPending(now: int, pending: seq<string>)
    | Changed(now: int, raw: RawId, chain: Option<Chain>, pending: seq<string>, query: Query)
    | Removed(raw: RawId)

  function Apply(s: Store, e: Event): Store {
    match e
    case NewLogs(now, filter, chain) => Create(s, now, Logs(filter, TipOf(chain), now)).0
    case NewBlocks(now, chain) => Create(s, now, Blocks(TipOf(chain), now)).0
    case NewPending(now, pending) => Create(s, now, PendingTxs(SetOf(NonEmpty(pending)), now)).0
    case Changed(now, raw, chain, pending, query) => Poll(s, now, raw, chain, pending, query).0
    case Removed(raw) => Uninstall(s, raw).0
  }

  function Run(s: Store, events: seq<Event>): Store
    decreases |events|
  {
    if events == [] then s else Apply(Run(s, events[..|events| - 1]), events[|events| - 1])
  }

  /** The event is a poll of filter id that reaches an installed filter. */
  predicate Polls(s: Store, e: Event, id: int) {
    e.Changed? && ParseId(e.raw) == Number(id) && id in s.filters
  }

  function ItemsOf(a: Answer): seq<string> {
    if a.Changes? then a.items else []
  }

  /** Everything the polls of filter id have returned. */
  function Delivered(s: Store, events: seq<Event>, id: int): seq<string>
    decreases |events|
  {
    if events == [] then []
    else
      var front, e := events[..|events| - 1], events[|events| - 1];
      Delivered(s, front, id)
      + if Polls(Run(s, front), e, id) then ItemsOf(Poll(Run(s, front), e.now, e.raw, e.chain, e.pending, e.query).1)
        else []
  }

  // ---------------------------------------------------------------- ids

  function Created(events: seq<Event>): nat
    decreases |events|
  {
    if events == [] then 0
    else
      var e := events[|events| - 1];
      Created(events[..|events| - 1]) + if e.Changed? || e.Removed? then 0 else 1
  }

  /** The k-th filter ever created gets the k-th next number, whatever was removed or
      expired, and its answer reads back as that number: no id is ever used twice. */
  lemma {:induction false} IdsAreNeverReused(s: Store, events: seq<Event>, now: int, row: Row)
    requires s.nextId >= 0
    ensures Run(s, events).nextId == s.nextId + Created(events)
    ensures var id := Create(Run(s, events), now, row).1;
      ParseId(IdText(id)) == Number(s.nextId + Created(events))
    ensures (forall k :: k in s.filters ==> k < s.nextId) ==>
      forall k :: k in Run(s, events).filters ==> k < s.nextId + Created(events)
    decreases |events|
  {
    hide ParseNumber, Hex, Prune, PollRow;
    if events != [] {
      IdsAreNeverReused(s, events[..|events| - 1], now, row);
      PruneIds(Run(s, events[..|events| - 1]), events[|events| - 1]);
    }
    ParseHex(s.nextId + Created(events));
    PruneKeepsNext(Run(s, events), now);
  }

  lemma PruneKeepsNext(s: Store, now: int)
    ensures Prune(s, now).nextId == s.nextId && Prune(s, now).filters.Keys <= s.filters.Keys
  {
  }

  lemma PruneIds(s: Store, e: Event)
    ensures e.NewLogs? || e.NewBlocks? || e.NewPending? ==>
      Prune(s, e.now).nextId == s.nextId && Prune(s, e.now).filters.Keys <= s.filters.Keys
  {
  }

  // ---------------------------------------------------------------- one filter among others

  /** What an event does to the row of filter id: it may go, or change by a poll of its
      own; nothing else touches it but the time of last access. */
  lemma RowAfter(s: Store, e: Event, id: int)
    requires id in s.filters && id < s.nextId
    ensures Apply(s, e).nextId >= s.nextId
    ensures id in Apply(s, e).filters ==>
      Apply(s, e).filters[id] == (if Polls(s, e, id) then
                                    PollRow(Touched(s.filters[id], e.now), e.chain, e.pending, e.query).1
                                  else s.filters[id])
  {
    hide PollRow, ParseNumber;
  }

  /** A number once handed out and now gone does not come back. */
  lemma {:induction false} GoneStaysGone(s: Store, events: seq<Event>, id: int)
    requires id !in s.filters && id < s.nextId
    ensures id !in Run(s, events).filters && id < Run(s, events).nextId
    ensures Delivered(s, events, id) == []
    decreases |events|
  {
    hide PollRow, ParseNumber, Hex;
    if events != [] {
      GoneStaysGone(s, events[..|events| - 1], id);
    }
  }

  lemma {:induction false} StillCounted(s: Store, events: seq<Event>, id: int)
    requires id < s.nextId
    ensures id < Run(s, events).nextId
    decreases |events|
  {
    hide PollRow, ParseNumber, Hex;
    if events != [] {
      StillCounted(s, events[..|events| - 1], id);
    }
  }

  // ---------------------------------------------------------------- block filters

  /** Every poll in the run sees the same append-only history. */
  ghost predicate OneHistory(events: seq<Event>, hashAt: int -> string) {
    forall k :: 0 <= k < |events| && events[k].Changed? && events[k].chain.Some? ==>
      events[k].chain.value.hashAt == hashAt
  }

  lemma {:induction false} HashesJoin(hashAt: int -> string, from: int, mid: int, to: int)
    requires from - 1 <= mid <= to
    ensures HashesOf(hashAt, from, to) == HashesOf(hashAt, from, mid) + HashesOf(hashAt, mid + 1, to)
    decreases (to - mid)
  {
    if mid < to {
      HashesJoin(hashAt, from, mid, to - 1);
      var last := if hashAt(to) != "" then [WithHashPrefix(hashAt(to))] else [];
      assert (HashesOf(hashAt, from, mid) + HashesOf(hashAt, mid + 1, to - 1)) + last
          == HashesOf(hashAt, from, mid) + (HashesOf(hashAt, mid + 1, to - 1) + last);
    } else {
      NoHashes(hashAt, to + 1);
    }
  }

  lemma NoHashes(hashAt: int -> string, from: int)
    ensures HashesOf(hashAt, from, from - 1) == []
  {
  }

  /** With every block present there is one hash a height. */
  lemma {:induction false} OneHashPerHeight(hashAt: int -> string, from: int, to: int)
    requires from - 1 <= to && forall h :: from <= h <= to ==> hashAt(h) != ""
    ensures |HashesOf(hashAt, from, to)| == to - from + 1
    ensures forall k :: 0 <= k < to - from + 1 ==> HashesOf(hashAt, from, to)[k] == WithHashPrefix(hashAt(from + k))
    decreases (to - from)
  {
    if from <= to {
      OneHashPerHeight(hashAt, from, to - 1);
    }
  }

  /** The highest tip among the polls that reached filter id, or the height it began at. */
  function Seen(s: Store, events: seq<Event>, id: int, start: int): int
    decreases |events|
  {
    if events == [] then start
    else
      var front, e := events[..|events| - 1], events[|events| - 1];
      var before := Seen(s, front, id, start);
      if Polls(Run(s, front), e, id) && e.chain.Some? then Max(before, e.chain.value.height) else before
  }

  /** A block filter created at height t delivers the blocks of heights t+1, t+2, ... up
      to the highest tip its polls have seen: each once, in order, none skipped. This
      holds for any movement of the tip, and up to its removal if it is removed. */
  lemma {:induction false} BlocksInOrder(s: Store, events: seq<Event>, id: int, hashAt: int -> string)
    requires id in s.filters && id < s.nextId && s.filters[id].Blocks? && OneHistory(events, hashAt)
    ensures var t := s.filters[id].lastHeight;
      && Seen(s, events, id, t) >= t
      && Delivered(s, events, id) == HashesOf(hashAt, t + 1, Seen(s, events, id, t))
      && (id in Run(s, events).filters ==>
            Run(s, events).filters[id].Blocks? && Run(s, events).filters[id].lastHeight == Seen(s, events, id, t))
    decreases |events|
  {
    hide ParseNumber, Hex, Apply, HashesOf, Poll;
    var start := s.filters[id].lastHeight;
    if events == [] {
      NoHashes(hashAt, start + 1);
    } else {
      var front, e := events[..|events| - 1], events[|events| - 1];
      BlocksInOrder(s, front, id, hashAt);
      var t := Run(s, front);
      StillCounted(s, front, id);
      BlockPolled(t, e, id, hashAt);
      var upTo := Seen(s, front, id, start);
      if id in t.filters && Polls(t, e, id) && e.chain.Some? && e.chain.value.height > upTo {
        HashesJoin(hashAt, start + 1, upTo, e.chain.value.height);
      }
    }
  }

  /** What one event delivers of a block filter, and where it leaves the cursor. */
  lemma BlockPolled(t: Store, e: Event, id: int, hashAt: int -> string)
    requires id < t.nextId && (id in t.filters ==> t.filters[id].Blocks?) && OneHistory([e], hashAt)
    ensures id !in t.filters ==> !Polls(t, e, id) && id !in Apply(t, e).filters
    ensures id in t.filters && Polls(t, e, id) ==>
      var last := t.filters[id].lastHeight;
      ItemsOf(Poll(t, e.now, e.raw, e.chain, e.pending, e.query).1)
      == if e.chain.Some? && e.chain.value.height > last then HashesOf(hashAt, last + 1, e.chain.value.height) else []
    ensures id in t.filters && id in Apply(t, e).filters ==>
      var last, row := t.filters[id].lastHeight, Apply(t, e).filters[id];
      && row.Blocks?
      && row.lastHeight == if Polls(t, e, id) && e.chain.Some? then Max(last, e.chain.value.height) else last
  {
    hide ParseNumber, Hex, Apply, HashesOf;
    if id in t.filters {
      assert [e][0] == e;
      RowAfter(t, e, id);
    } else {
      GoneStaysGone(t, [e], id);
      assert Run(t, [e]) == Apply(t, e) by { assert [e][..0] == []; }
    }
  }

  /** With all blocks present: as many hashes as heights from t+1 to the highest tip seen,
      the k-th of them the block at t+1+k. */
  lemma BlocksExactlyOnce(s: Store, events: seq<Event>, id: int, hashAt: int -> string)
    requires id in s.filters && id < s.nextId && s.filters[id].Blocks? && OneHistory(events, hashAt)
    requires var t := s.filters[id].lastHeight;
      forall h :: t < h <= Seen(s, events, id, t) ==> hashAt(h) != ""
    ensures var t := s.filters[id].lastHeight;
      var items := Delivered(s, events, id);
      && |items| == Seen(s, events, id, t) - t
      && forall k :: 0 <= k < |items| ==> items[k] == WithHashPrefix(hashAt(t + 1 + k))
  {
    hide Seen, Delivered, HashesOf, Run, WithHashPrefix, OneHistory;
    BlocksInOrder(s, events, id, hashAt);
    OneHashPerHeight(hashAt, s.filters[id].lastHeight + 1, Seen(s, events, id, s.filters[id].lastHeight));
  }

  // ---------------------------------------------------------------- log filters

  datatype Range = Range(from: int, to: int)

  /** The height ranges a poll of a log filter asked for and was answered. */
  function RangeAsked(row: Row, chain: Option<Chain>, query: Query): seq<Range>
    requires row.Logs?
  {
    var tip := TipOf(chain);
    if tip <= row.lastHeight || query(LogRange(row.filter, row.lastHeight + 1, tip)).None? then []
    else [Range(row.lastHeight + 1, tip)]
  }

  function Asked(s: Store, events: seq<Event>, id: int): seq<Range>
    decreases |events|
  {
    if events == [] then []
    else
      var front, e := events[..|events| - 1], events[|events| - 1];
      var t := Run(s, front);
      Asked(s, front, id)
      + if Polls(t, e, id) && t.filters[id].Logs? then RangeAsked(t.filters[id], e.chain, e.query) else []
  }

  /** The ranges follow one another from `from` to `to` without gap or overlap. */
  predicate Tiles(ranges: seq<Range>, from: int, to: int) {
    if ranges == [] then to == from - 1
    else
      var last := ranges[|ranges| - 1];
      last.from <= last.to == to && Tiles(ranges[..|ranges| - 1], from, last.from - 1)
  }

  /** The queries answer with the logs of the heights they are asked for. */
  ghost predicate Answers(query: Query, filter: Criteria, logsOf: (int, int) -> seq<string>) {
    forall from, to :: from <= to ==>
      query(LogRange(filter, from, to)).None? || query(LogRange(filter, from, to)).value == logsOf(from, to)
  }

  function LogsIn(ranges: seq<Range>, logsOf: (int, int) -> seq<string>): seq<string>
    decreases |ranges|
  {
    if ranges == [] then []
    else
      var last := ranges[|ranges| - 1];
      LogsIn(ranges[..|ranges| - 1], logsOf) + logsOf(last.from, last.to)
  }

  lemma LogPoll(row: Row, chain: Option<Chain>, query: Query, logsOf: (int, int) -> seq<string>)
    requires row.Logs? && Answers(query, row.filter, logsOf)
    ensures var r, asked, tip := PollLogs(row, chain, query), RangeAsked(row, chain, query), TipOf(chain);
      if asked == [] then ItemsOf(r.0) == [] && r.1 == row
      else
        && tip > row.lastHeight && asked == [Range(row.lastHeight + 1, tip)]
        && ItemsOf(r.0) == logsOf(row.lastHeight + 1, tip) && r.1 == Logs(row.filter, tip, row.lastAccess)
  {
    hide LogRange;
  }

  lemma TilesMore(ranges: seq<Range>, from: int, mid: int, r: Range, logsOf: (int, int) -> seq<string>)
    requires Tiles(ranges, from, mid) && mid + 1 == r.from <= r.to
    ensures Tiles(ranges + [r], from, r.to)
    ensures LogsIn(ranges + [r], logsOf) == LogsIn(ranges, logsOf) + logsOf(r.from, r.to)
  {
    assert (ranges + [r])[..|ranges|] == ranges;
  }

  /** The highest tip for which a poll of filter id asked and was answered: a poll asks for
      what lies between the last answered tip and its own. */
  function Answered(s: Store, events: seq<Event>, id: int, filter: Criteria, start: int): int
    decreases |events|
  {
    if events == [] then start
    else
      var front, e := events[..|events| - 1], events[|events| - 1];
      var before := Answered(s, front, id, filter, start);
      if Polls(Run(s, front), e, id) && TipOf(e.chain) > before
         && e.query(LogRange(filter, before + 1, TipOf(e.chain))).Some? then TipOf(e.chain)
      else before
  }

  /** The answered ranges of a log filter created at height t tile t+1 up to the highest
      answered tip, a failed query is asked again, and what is delivered is exactly the
      logs of those ranges. */
  lemma {:induction false} LogRangesTile(s: Store, events: seq<Event>, id: int, logsOf: (int, int) -> seq<string>)
    requires id in s.filters && id < s.nextId && s.filters[id].Logs?
    requires forall k :: 0 <= k < |events| && events[k].Changed? ==>
      Answers(events[k].query, s.filters[id].filter, logsOf)
    ensures var filter, t := s.filters[id].filter, s.filters[id].lastHeight;
      var upTo := Answered(s, events, id, filter, t);
      && Tiles(Asked(s, events, id), t + 1, upTo)
      && Delivered(s, events, id) == LogsIn(Asked(s, events, id), logsOf)
      && (id in Run(s, events).filters ==>
            var row := Run(s, events).filters[id];
            row.Logs? && row.lastHeight == upTo && row.filter == filter)
    decreases |events|
  {
    hide ParseNumber, Hex, LogRange, Answers, Tiles, PollLogs, RangeAsked, LogsIn, Apply;
    var filter, start := s.filters[id].filter, s.filters[id].lastHeight;
    if events == [] {
      NoRanges(start + 1, logsOf);
    } else {
      var front, e := events[..|events| - 1], events[|events| - 1];
      LogRangesTile(s, front, id, logsOf);
      var upTo := Answered(s, front, id, filter, start);
      assert Asked(s, front, id) + [] == Asked(s, front, id);
      assert Delivered(s, front, id) + [] == Delivered(s, front, id);
      var t := Run(s, front);
      StillCounted(s, front, id);
      if id !in t.filters {
        GoneStaysGone(t, [e], id);
        assert Run(t, [e]) == Apply(t, e) by { assert [e][..0] == []; }
      } else {
        RowAfter(t, e, id);
        if Polls(t, e, id) {
          var row := Touched(t.filters[id], e.now);
          LogPoll(row, e.chain, e.query, logsOf);
          SameRange(t.filters[id], row, e.chain, e.query);
          AskedWhenAnswered(row, e.chain, e.query);
          if RangeAsked(row, e.chain, e.query) != [] {
            TilesMore(Asked(s, front, id), start + 1, upTo, Range(upTo + 1, TipOf(e.chain)), logsOf);
          }
        }
      }
    }
  }

  lemma AskedWhenAnswered(row: Row, chain: Option<Chain>, query: Query)
    requires row.Logs?
    ensures RangeAsked(row, chain, query) != []
      <==> TipOf(chain) > row.lastHeight && query(LogRange(row.filter, row.lastHeight + 1, TipOf(chain))).Some?
  {
  }

  /** When every query answers, the answered tip is the highest tip polled. */
  lemma {:induction false} AllAnswered(s: Store, events: seq<Event>, id: int, filter: Criteria, start: int)
    requires forall k, from, to :: 0 <= k < |events| && events[k].Changed? ==>
      events[k].query(LogRange(filter, from, to)).Some?
    ensures Answered(s, events, id, filter, start) == Polled(s, events, id, start)
    decreases |events|
  {
    hide Run, LogRange, ParseNumber;
    if events != [] {
      AllAnswered(s, events[..|events| - 1], id, filter, start);
    }
  }

  /** The highest tip polled, a missing chain counting as height 0. */
  function Polled(s: Store, events: seq<Event>, id: int, start: int): int
    decreases |events|
  {
    if events == [] then start
    else
      var front, e := events[..|events| - 1], events[|events| - 1];
      var before := Polled(s, front, id, start);
      if Polls(Run(s, front), e, id) then Max(before, TipOf(e.chain)) else before
  }

  lemma NoRanges(from: int, logsOf: (int, int) -> seq<string>)
    ensures Tiles([], from, from - 1) && LogsIn([], logsOf) == []
  {
  }

  lemma SameRange(a: Row, b: Row, chain: Option<Chain>, query: Query)
    requires a.Logs? && b.Logs? && a.filter == b.filter && a.lastHeight == b.lastHeight
    ensures RangeAsked(a, chain, query) == RangeAsked(b, chain, query)
  {
  }

  // ---------------------------------------------------------------- pending filters

  lemma {:induction false} UnseenOk(hashes: seq<string>, seen: set<string>)
    requires NoDup(hashes)
    ensures NoDup(Unseen(hashes, seen))
    ensures forall h :: h in Unseen(hashes, seen) <==> h in hashes && h !in seen
    decreases |hashes|
  {
    if hashes != [] {
      var front, last := hashes[..|hashes| - 1], hashes[|hashes| - 1];
      UnseenOk(front, seen);
      assert hashes == front + [last];
      assert last !in front;
    }
  }

  lemma IncreasingNoDup(s: seq<string>)
    requires Increasing(s)
    ensures NoDup(s)
  {
    forall i, j | 0 <= i < j < |s| ensures s[i] != s[j] {
      BelowIrreflexive(s[i]);
    }
  }

  lemma PollPendingOk(row: Row, pending: seq<string>)
    requires row.PendingTxs?
    ensures NoDup(PollPending(row, pending).0.items)
    ensures forall h :: h in PollPending(row, pending).0.items <==> h in NonEmpty(pending) && h !in row.seen
  {
    SortedSetOk(NonEmpty(pending));
    IncreasingNoDup(SortedSet(NonEmpty(pending)));
    UnseenOk(SortedSet(NonEmpty(pending)), row.seen);
  }

  /** A pending filter never reports a hash twice, nor one from before its creation, and
      what it has seen is exactly that and what it delivered. */
  lemma {:induction false} PendingAtMostOnce(s: Store, events: seq<Event>, id: int)
    requires id in s.filters && id < s.nextId && s.filters[id].PendingTxs?
    ensures NoDup(Delivered(s, events, id))
    ensures forall h :: h in Delivered(s, events, id) ==> h !in s.filters[id].seen
    ensures id in Run(s, events).filters ==>
      Run(s, events).filters[id].PendingTxs?
      && Run(s, events).filters[id].seen == s.filters[id].seen + SetOf(Delivered(s, events, id))
    decreases |events|
  {
    hide ParseNumber, Hex, SortedSet, NonEmpty;
    if events != [] {
      var front, e := events[..|events| - 1], events[|events| - 1];
      PendingAtMostOnce(s, front, id);
      var t := Run(s, front);
      StillCounted(s, front, id);
      if id in t.filters {
        RowAfter(t, e, id);
        if Polls(t, e, id) {
          var row := Touched(t.filters[id], e.now);
          PollPendingOk(row, e.pending);
          var items := PollPending(row, e.pending).0.items;
          assert Delivered(s, events, id) == Delivered(s, front, id) + items;
          forall i, j | 0 <= i < |Delivered(s, front, id)| && 0 <= j < |items|
            ensures Delivered(s, front, id)[i] != items[j]
          {
            assert items[j] in items && Delivered(s, front, id)[i] in SetOf(Delivered(s, front, id));
          }
        }
      } else {
        GoneStaysGone(t, [e], id);
        assert Run(t, [e]) == Apply(t, e) by { assert [e][..0] == []; }
      }
    }
  }
}
