/** How long a polling filter lives, what a poll of pending transactions must return, and
    how a range of heights is written into a log query. */
module FilterLives {
  import opened Wrappers
  import opened Collections
  import opened Text
  import opened Filters
  import opened FilterRuns

  // ---------------------------------------------------------------- which filters live

  /** When filter id was last asked for: at its creation or by the last poll under any spelling. */
  function LastAsked(start: int, events: seq<Event>, id: int): int
    decreases |events|
  {
    if events == [] then start
    else
      var e := events[|events| - 1];
      if e.Changed? && ParseId(e.raw) == Number(id) then e.now else LastAsked(start, events[..|events| - 1], id)
  }

  predicate Creates(e: Event) {
    e.NewLogs? || e.NewBlocks? || e.NewPending?
  }

  /** Event k uninstalls filter id, or creates a filter more than 300 seconds after id was asked for. */
  predicate Ends(start: int, events: seq<Event>, k: nat, id: int)
    requires k < |events|
  {
    var e := events[k];
    || (e.Removed? && ParseId(e.raw) == Number(id))
    || (Creates(e) && e.now - LastAsked(start, events[..k], id) > 300)
  }

  /** One event: the filter goes or stays, and if it stays the time of its last access is kept or set. */
  lemma EventLives(s: Store, e: Event, id: int)
    requires id in s.filters && id < s.nextId
    ensures id in Apply(s, e).filters <==>
      !(e.Removed? && ParseId(e.raw) == Number(id)) && !(Creates(e) && e.now - s.filters[id].lastAccess > 300)
    ensures id in Apply(s, e).filters ==>
      Apply(s, e).filters[id].lastAccess
      == if e.Changed? && ParseId(e.raw) == Number(id) then e.now else s.filters[id].lastAccess
    ensures id < Apply(s, e).nextId
  {
    hide ParseNumber, Hex, LogRange, HashesOf, Unseen, SortedSet, NonEmpty;
  }

  /** Over any run a filter is installed at the end if and only if no event ended it: polls within 300
      seconds before every creation keep it, and anything else loses it at the next creation. */
  lemma {:induction false} LivesExactly(s: Store, events: seq<Event>, id: int)
    requires id in s.filters && id < s.nextId
    ensures var start, t := s.filters[id].lastAccess, Run(s, events);
      && (id in t.filters <==> forall k :: 0 <= k < |events| ==> !Ends(start, events, k, id))
      && (id in t.filters ==> t.filters[id].lastAccess == LastAsked(start, events, id))
      && id < t.nextId
    decreases |events|
  {
    hide ParseNumber, Apply;
    if events != [] {
      var start, n, front := s.filters[id].lastAccess, |events| - 1, events[..|events| - 1];
      LivesExactly(s, front, id);
      forall k | 0 <= k < n ensures Ends(start, events, k, id) <==> Ends(start, front, k, id) {
        assert front[..k] == events[..k];
      }
      var t := Run(s, front);
      if id in t.filters {
        EventLives(t, events[n], id);
        assert t.filters[id].lastAccess == LastAsked(start, events[..n], id);
        assert id in Run(s, events).filters <==> !Ends(start, events, n, id);
      } else {
        EventGone(t, events[n], id);
        var k :| 0 <= k < n && Ends(start, front, k, id);
        assert Ends(start, events, k, id);
      }
    }
  }

  lemma EventGone(s: Store, e: Event, id: int)
    requires id !in s.filters && id < s.nextId
    ensures id !in Apply(s, e).filters && id < Apply(s, e).nextId
  {
    hide ParseNumber, Hex, PollRow;
  }

  /** Uninstalling answers whether a filter was there under the number the text spells. */
  lemma UninstallAnswers(s: Store, raw: RawId)
    ensures Uninstall(s, raw).1 <==> exists id :: ParseId(raw) == Number(id) && id in s.filters
  {
    hide ParseNumber;
    if Uninstall(s, raw).1 {
      assert ParseId(raw) == Number(ParseId(raw).value);
    }
  }

  /** A new filter is installed under the next id, is asked for at that moment, and starts at the tip. */
  lemma CreatedAtTip(s: Store, e: Event)
    requires e.NewLogs? || e.NewBlocks?
    ensures var t := Apply(s, e);
      && t.nextId == s.nextId + 1 && s.nextId in t.filters && t.filters[s.nextId].lastAccess == e.now
      && t.filters[s.nextId].lastHeight == (if e.chain.Some? then e.chain.value.height else 0)
      && (e.NewLogs? ==> t.filters[s.nextId].Logs? && t.filters[s.nextId].filter == e.filter)
      && (e.NewBlocks? ==> t.filters[s.nextId].Blocks?)
  {
    hide Hex;
  }

  // ---------------------------------------------------------------- blocks

  /** A block hash is reported with 0x in front, once. */
  lemma HashText(h: string)
    ensures var r := WithHashPrefix(h);
      |r| >= 2 && r[..2] == "0x" && (r == h || r == "0x" + h)
  {
  }

  predicate IsHashAt(hashAt: int -> string, h: int, x: string) {
    hashAt(h) != "" && x == WithHashPrefix(hashAt(h))
  }

  /** The hashes of a range of heights are those of its blocks that have one. */
  lemma {:induction false} HashesOfBlocks(hashAt: int -> string, from: int, to: int, x: string)
    ensures x in HashesOf(hashAt, from, to) <==> exists h :: from <= h <= to && IsHashAt(hashAt, h, x)
    decreases (to - from)
  {
    hide WithHashPrefix;
    if from <= to {
      HashesOfBlocks(hashAt, from, to - 1, x);
      if IsHashAt(hashAt, to, x) {
        assert from <= to <= to && IsHashAt(hashAt, to, x);
      }
    }
  }

  // ---------------------------------------------------------------- pending transactions

  /** The event is a poll of filter id that finds the hash pending. */
  predicate Offers(s: Store, e: Event, id: int, h: string) {
    Polls(s, e, id) && h in e.pending && h != ""
  }

  ghost predicate Offered(s: Store, events: seq<Event>, id: int, h: string) {
    exists k :: 0 <= k < |events| && Offers(Run(s, events[..k]), events[k], id, h)
  }

  lemma OfferedLast(s: Store, events: seq<Event>, id: int, h: string)
    requires events != []
    ensures var n, front := |events| - 1, events[..|events| - 1];
      Offered(s, events, id, h) <==> Offered(s, front, id, h) || Offers(Run(s, front), events[n], id, h)
  {
    hide Offers, Run;
    var n, front := |events| - 1, events[..|events| - 1];
    forall k | 0 <= k < n ensures front[..k] == events[..k] {
    }
    if Offered(s, front, id, h) {
      var k :| 0 <= k < n && Offers(Run(s, front[..k]), front[k], id, h);
      assert Offers(Run(s, events[..k]), events[k], id, h);
    }
    if Offered(s, events, id, h) && !Offers(Run(s, front), events[n], id, h) {
      var k :| 0 <= k <= n && Offers(Run(s, events[..k]), events[k], id, h);
      assert Offers(Run(s, front[..k]), front[k], id, h);
    }
  }

  lemma {:induction false} NonEmptyElements(rows: seq<string>, h: string)
    ensures h in NonEmpty(rows) <==> h in rows && h != ""
    decreases |rows|
  {
    if rows != [] {
      NonEmptyElements(rows[..|rows| - 1], h);
      assert rows == rows[..|rows| - 1] + [rows[|rows| - 1]];
    }
  }

  /** Pending transactions exactly once: what the polls of a pending filter have returned is, each hash
      once, what some poll found pending and was not seen at the creation. */
  lemma {:induction false} PendingExactlyOnce(s: Store, events: seq<Event>, id: int, h: string)
    requires id in s.filters && id < s.nextId && s.filters[id].PendingTxs?
    ensures NoDup(Delivered(s, events, id))
    ensures h in Delivered(s, events, id) <==> h !in s.filters[id].seen && Offered(s, events, id, h)
    decreases |events|
  {
    hide ParseNumber, Hex, SortedSet, NonEmpty, Offered, Apply, Unseen;
    PendingAtMostOnce(s, events, id);
    if events != [] {
      var n, front := |events| - 1, events[..|events| - 1];
      PendingExactlyOnce(s, front, id, h);
      PendingAtMostOnce(s, front, id);
      OfferedLast(s, events, id, h);
      var t := Run(s, front);
      if Polls(t, events[n], id) {
        var row := Touched(t.filters[id], events[n].now);
        PollPendingOk(row, events[n].pending);
        NonEmptyElements(events[n].pending, h);
        assert Delivered(s, events, id) == Delivered(s, front, id) + PollPending(row, events[n].pending).0.items;
      }
    } else {
      assert !Offered(s, events, id, h) by { NothingOffered(s, id, h); }
    }
  }

  lemma NothingOffered(s: Store, id: int, h: string)
    ensures !Offered(s, [], id, h)
  {
  }

  lemma {:induction false} UnseenInOrder(hashes: seq<string>, seen: set<string>)
    requires Increasing(hashes)
    ensures Increasing(Unseen(hashes, seen)) && forall h :: h in Unseen(hashes, seen) ==> h in hashes
    decreases |hashes|
  {
    hide Below;
    if hashes != [] {
      var front, last := hashes[..|hashes| - 1], hashes[|hashes| - 1];
      UnseenInOrder(front, seen);
      var r := Unseen(front, seen);
      forall i | 0 <= i < |r| ensures Below(r[i], last) {
        assert r[i] in front;
      }
    }
  }

  /** One poll answers in increasing order. */
  lemma PendingInOrder(row: Row, pending: seq<string>)
    requires row.PendingTxs?
    ensures Increasing(PollPending(row, pending).0.items)
  {
    SortedSetOk(NonEmpty(pending));
    UnseenInOrder(SortedSet(NonEmpty(pending)), row.seen);
  }

  /** What was pending at the creation of a filter is what it has seen then. */
  lemma CreatedSeen(s: Store, now: int, pending: seq<string>, h: string)
    ensures var t := Apply(s, NewPending(now, pending));
      && s.nextId in t.filters && t.filters[s.nextId].PendingTxs?
      && (h in t.filters[s.nextId].seen <==> h in pending && h != "")
  {
    hide Hex;
    NonEmptyElements(pending, h);
  }

  // ---------------------------------------------------------------- ranges

  /** The query of a range carries its two heights as numbers that read back, and the rest of the
      criteria as they were. */
  lemma RangeReadsBack(filter: Criteria, from: nat, to: nat)
    ensures var query := LogRange(filter, from, to);
      && "fromBlock" in query && ParseNumber(query["fromBlock"]) == Number(from)
      && "toBlock" in query && ParseNumber(query["toBlock"]) == Number(to)
      && query.Keys == filter.Keys + {"fromBlock", "toBlock"}
      && forall k :: k in filter && k != "fromBlock" && k != "toBlock" ==> query[k] == filter[k]
  {
    ParseHex(from);
    ParseHex(to);
    hide ParseNumber, Hex;
    assert "fromBlock"[0] != "toBlock"[0];
  }
}
