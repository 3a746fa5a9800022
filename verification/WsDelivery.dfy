/** Who is subscribed after any run, and who is told of a new block. */
module WsDelivery {
  import opened Wrappers
  import opened Text
  import opened Filters
  import opened WsSubs

  // ---------------------------------------------------------------- who is subscribed

  /** The four kinds of subscription. */
  predicate Kind(kind: string) {
    kind in ["newHeads", "logs", "newPendingTransactions", "syncing"]
  }

  /** The event ends subscription sid of connection c: its connection unsubscribes it, under any
      spelling of its id, or goes. */
  predicate Ends(e: Event, sid: int, c: int) {
    || (e.Unsubscribing? && e.connId == c && ParseId(e.raw) == Number(sid))
    || (e.Dropping? && e.connId == c)
  }

  /** Subscription sid of connection c is there, with this kind and these criteria. */
  predicate Holds(g: Registry, sid: int, kind: string, filter: Criteria, c: int) {
    exists i :: 0 <= i < |g.subs| && IsRow(g.subs[i], sid, kind, filter, c)
  }

  predicate IsRow(r: WsSubs.Row, sid: int, kind: string, filter: Criteria, c: int) {
    r.sid == sid && r.sub.kind == kind && r.sub.filter == filter && r.sub.connId == c
  }

  /** The event creates subscription sid. */
  predicate Issues(g: Registry, e: Event, sid: int, kind: string, filter: Criteria, c: int) {
    e.Subscribing? && Kind(kind) && Strip(e.kind) == kind && e.filter == filter && e.connId == c && g.nextId == sid
  }

  lemma SubscribeHolds(g: Registry, e: Event, sid: int, kind: string, filter: Criteria, c: int)
    requires e.Subscribing?
    ensures Holds(Apply(g, e), sid, kind, filter, c) <==>
      Holds(g, sid, kind, filter, c) || Issues(g, e, sid, kind, filter, c)
    ensures Apply(g, e).nextId == g.nextId + if Kind(Strip(e.kind)) then 1 else 0
    ensures Kind(Strip(e.kind)) ==>
      Apply(g, e).subs == g.subs + [WsSubs.Row(g.nextId, Sub(Strip(e.kind), e.filter, e.connId, -1))]
  {
    hide Strip;
    var h := Apply(g, e);
    if Holds(g, sid, kind, filter, c) {
      var i :| 0 <= i < |g.subs| && IsRow(g.subs[i], sid, kind, filter, c);
      assert IsRow(h.subs[i], sid, kind, filter, c);
    }
    if Issues(g, e, sid, kind, filter, c) {
      assert IsRow(h.subs[|g.subs|], sid, kind, filter, c);
    }
  }

  lemma UnsubscribeHolds(g: Registry, e: Event, sid: int, kind: string, filter: Criteria, c: int)
    requires Ordered(g) && e.Unsubscribing?
    ensures Holds(Apply(g, e), sid, kind, filter, c) <==> Holds(g, sid, kind, filter, c) && !Ends(e, sid, c)
    ensures Apply(g, e).nextId == g.nextId
  {
    hide ParseNumber, Drop, Ordered, IndexOf, Holds;
    if Owned(g, e.connId, e.raw) {
      var gone := ParseId(e.raw).value;
      DropOne(g, gone, sid, kind, filter, c);
      if Holds(g, sid, kind, filter, c) && sid == gone {
        OwnerOf(g, gone, sid, kind, filter, c);
      }
    } else if Holds(g, sid, kind, filter, c) {
      OwnerOf(g, sid, sid, kind, filter, c);
    }
  }

  lemma DropOne(g: Registry, gone: int, sid: int, kind: string, filter: Criteria, c: int)
    requires Ordered(g) && Has(g.subs, gone)
    ensures Holds(g.(subs := Drop(g.subs, gone)), sid, kind, filter, c) <==>
      Holds(g, sid, kind, filter, c) && sid != gone
    ensures forall m :: Holds(g.(subs := Drop(g.subs, gone), connSubs := m), sid, kind, filter, c) <==>
      Holds(g.(subs := Drop(g.subs, gone)), sid, kind, filter, c)
  {
    var at, after := IndexOf(g.subs, gone), Drop(g.subs, gone);
    if Holds(g, sid, kind, filter, c) && sid != gone {
      var i :| 0 <= i < |g.subs| && IsRow(g.subs[i], sid, kind, filter, c);
      assert IsRow(after[if i < at then i else i - 1], sid, kind, filter, c);
    }
    if Holds(g.(subs := after), sid, kind, filter, c) {
      var i :| 0 <= i < |after| && IsRow(after[i], sid, kind, filter, c);
      assert IsRow(g.subs[if i < at then i else i + 1], sid, kind, filter, c);
    }
  }

  /** A number stands for one subscription, of one connection. */
  lemma OwnerOf(g: Registry, gone: int, sid: int, kind: string, filter: Criteria, c: int)
    requires Ordered(g) && Holds(g, sid, kind, filter, c) && sid == gone
    ensures Has(g.subs, gone) && g.subs[IndexOf(g.subs, gone)].sub.connId == c
  {
    var i :| 0 <= i < |g.subs| && IsRow(g.subs[i], sid, kind, filter, c);
    FoundAt(g, i);
  }

  lemma FoundAt(g: Registry, i: nat)
    requires Ordered(g) && i < |g.subs|
    ensures IndexOf(g.subs, g.subs[i].sid) == i
  {
  }

  lemma {:induction false} DropAllElements(subs: seq<WsSubs.Row>, gone: set<int>, r: WsSubs.Row)
    ensures r in DropAll(subs, gone) <==> r in subs && r.sid !in gone
    decreases |subs|
  {
    if subs != [] {
      DropAllElements(subs[..|subs| - 1], gone, r);
      assert subs == subs[..|subs| - 1] + [subs[|subs| - 1]];
    }
  }

  lemma DropHolds(g: Registry, e: Event, sid: int, kind: string, filter: Criteria, c: int)
    requires Ordered(g) && Mirrored(g) && e.Dropping?
    ensures Holds(Apply(g, e), sid, kind, filter, c) <==> Holds(g, sid, kind, filter, c) && !Ends(e, sid, c)
    ensures Apply(g, e).nextId == g.nextId
  {
    var h, gone := Apply(g, e), ConnSet(g.connSubs, e.connId);
    assert sid in gone <==> OwnedBy(g.subs, sid, e.connId);
    if Holds(g, sid, kind, filter, c) {
      var i :| 0 <= i < |g.subs| && IsRow(g.subs[i], sid, kind, filter, c);
      assert OwnedBy(g.subs, sid, c);
      if OwnedBy(g.subs, sid, e.connId) {
        SameOwner(g, sid, c, e.connId);
      }
      DropAllElements(g.subs, gone, g.subs[i]);
      if c != e.connId {
        var j :| 0 <= j < |h.subs| && h.subs[j] == g.subs[i];
        assert IsRow(h.subs[j], sid, kind, filter, c);
      }
    }
    if Holds(h, sid, kind, filter, c) {
      var i :| 0 <= i < |h.subs| && IsRow(h.subs[i], sid, kind, filter, c);
      DropAllElements(g.subs, gone, h.subs[i]);
      var j :| 0 <= j < |g.subs| && g.subs[j] == h.subs[i];
      assert IsRow(g.subs[j], sid, kind, filter, c);
    }
  }

  lemma BlockHolds(g: Registry, e: Event, sid: int, kind: string, filter: Criteria, c: int)
    requires e.Block?
    ensures Holds(Apply(g, e), sid, kind, filter, c) <==> Holds(g, sid, kind, filter, c)
    ensures Apply(g, e).nextId == g.nextId
  {
    ServeKeeps(g.subs, |g.subs|, e.height, e.query);
    hide ServeLogs;
    var h := Apply(g, e);
    if Holds(g, sid, kind, filter, c) {
      var i :| 0 <= i < |g.subs| && IsRow(g.subs[i], sid, kind, filter, c);
      assert IsRow(h.subs[i], sid, kind, filter, c);
    }
    if Holds(h, sid, kind, filter, c) {
      var i :| 0 <= i < |h.subs| && IsRow(h.subs[i], sid, kind, filter, c);
      assert IsRow(g.subs[i], sid, kind, filter, c);
    }
  }

  lemma EventHolds(g: Registry, e: Event, sid: int, kind: string, filter: Criteria, c: int)
    requires Ordered(g) && Mirrored(g)
    ensures Holds(Apply(g, e), sid, kind, filter, c) <==>
      (Holds(g, sid, kind, filter, c) && !Ends(e, sid, c)) || Issues(g, e, sid, kind, filter, c)
  {
    match e {
      case Subscribing(_, _, _) => SubscribeHolds(g, e, sid, kind, filter, c);
      case Unsubscribing(_, _) => UnsubscribeHolds(g, e, sid, kind, filter, c);
      case Dropping(_) => DropHolds(g, e, sid, kind, filter, c);
      case Block(_, _) => BlockHolds(g, e, sid, kind, filter, c);
    }
    hide Holds, Apply, Ordered, Mirrored, ParseNumber, Strip;
  }

  function AtStart(): Registry {
    Registry(1, [], map[])
  }

  /** Event k creates the subscription, and no later event ends it. */
  predicate Lasts(events: seq<Event>, k: nat, sid: int, kind: string, filter: Criteria, c: int) {
    && k < |events| && Issues(Run(AtStart(), events[..k]), events[k], sid, kind, filter, c)
    && forall j :: k < j < |events| ==> !Ends(events[j], sid, c)
  }

  lemma LastsLast(events: seq<Event>, k: nat, sid: int, kind: string, filter: Criteria, c: int)
    requires events != []
    ensures var n, front := |events| - 1, events[..|events| - 1];
      Lasts(events, k, sid, kind, filter, c) <==>
        (Lasts(front, k, sid, kind, filter, c) && !Ends(events[n], sid, c))
        || (k == n && Issues(Run(AtStart(), front), events[n], sid, kind, filter, c))
  {
    hide Issues, Ends, Run;
    var n, front := |events| - 1, events[..|events| - 1];
    if k < n {
      assert front[..k] == events[..k];
      if Lasts(events, k, sid, kind, filter, c) {
        forall j | k < j < n ensures !Ends(front[j], sid, c) {
          assert !Ends(events[j], sid, c);
        }
      }
      if Lasts(front, k, sid, kind, filter, c) && !Ends(events[n], sid, c) {
        forall j | k < j < |events| ensures !Ends(events[j], sid, c) {
          assert j < n ==> !Ends(front[j], sid, c);
        }
      }
    }
  }

  /** After any run a subscription is there if and only if some event created it, under the next id, and
      its connection neither unsubscribed it nor went since. */
  lemma {:induction false} SubscribedExactly(events: seq<Event>, sid: int, kind: string, filter: Criteria, c: int)
    ensures Holds(Run(AtStart(), events), sid, kind, filter, c) <==>
      exists k :: Lasts(events, k, sid, kind, filter, c)
    decreases |events|
  {
    if events != [] {
      var n, front := |events| - 1, events[..|events| - 1];
      SubscribedExactly(front, sid, kind, filter, c);
      IndexesMirror(front);
      EventHolds(Run(AtStart(), front), events[n], sid, kind, filter, c);
      hide Holds, Apply, Ordered, Mirrored, Issues, Ends;
      forall k: nat ensures Lasts(events, k, sid, kind, filter, c) <==>
        (Lasts(front, k, sid, kind, filter, c) && !Ends(events[n], sid, c))
        || (k == n && Issues(Run(AtStart(), front), events[n], sid, kind, filter, c))
      {
        LastsLast(events, k, sid, kind, filter, c);
      }
      hide Lasts;
      if Issues(Run(AtStart(), front), events[n], sid, kind, filter, c) {
        assert Lasts(events, n, sid, kind, filter, c);
      }
    }
  }

  // ---------------------------------------------------------------- who hears of a block

  /** Subscription sid is there and asked for new heads. */
  predicate WantsHeads(subs: seq<WsSubs.Row>, sid: int) {
    exists i :: 0 <= i < |subs| && subs[i].sid == sid && subs[i].sub.kind == "newHeads"
  }

  lemma WantsLast(subs: seq<WsSubs.Row>, sid: int)
    requires subs != []
    ensures var front, last := subs[..|subs| - 1], subs[|subs| - 1];
      WantsHeads(subs, sid) <==> WantsHeads(front, sid) || (last.sid == sid && last.sub.kind == "newHeads")
  {
    var front, last := subs[..|subs| - 1], subs[|subs| - 1];
    if WantsHeads(front, sid) {
      var i :| 0 <= i < |front| && front[i].sid == sid && front[i].sub.kind == "newHeads";
      assert subs[i] == front[i];
    }
    if WantsHeads(subs, sid) && !(last.sid == sid && last.sub.kind == "newHeads") {
      var i :| 0 <= i < |subs| && subs[i].sid == sid && subs[i].sub.kind == "newHeads";
      assert front[i] == subs[i];
    }
  }

  /** A block sends each subscription to new heads exactly one head, and no other any. */
  lemma {:induction false} OneHeadEach(subs: seq<WsSubs.Row>, sid: int)
    requires IncreasingIds(subs)
    ensures multiset(Heads(subs))[Head(sid)] == if WantsHeads(subs, sid) then 1 else 0
    ensures forall n :: n in Heads(subs) ==> n.Head?
    decreases |subs|
  {
    if subs != [] {
      var front, last := subs[..|subs| - 1], subs[|subs| - 1];
      OneHeadEach(front, sid);
      WantsLast(subs, sid);
    }
  }

  /** After any run, a block sends exactly one head to each subscription to new heads that was created and
      not ended since, and none to any other number. */
  lemma HeadsAfterRun(events: seq<Event>, sid: int)
    ensures var subs := Run(AtStart(), events).subs;
      multiset(Heads(subs))[Head(sid)] == if WantsHeads(subs, sid) then 1 else 0
    ensures WantsHeads(Run(AtStart(), events).subs, sid) <==>
      exists filter, c :: Holds(Run(AtStart(), events), sid, "newHeads", filter, c)
  {
    var g := Run(AtStart(), events);
    IndexesMirror(events);
    OneHeadEach(g.subs, sid);
    hide Heads, Run, Mirrored;
    if WantsHeads(g.subs, sid) {
      var i :| 0 <= i < |g.subs| && g.subs[i].sid == sid && g.subs[i].sub.kind == "newHeads";
      assert IsRow(g.subs[i], sid, "newHeads", g.subs[i].sub.filter, g.subs[i].sub.connId);
      assert Holds(g, sid, "newHeads", g.subs[i].sub.filter, g.subs[i].sub.connId);
    }
    if filter, c :| Holds(g, sid, "newHeads", filter, c) {
      var i :| 0 <= i < |g.subs| && IsRow(g.subs[i], sid, "newHeads", filter, c);
      assert g.subs[i].sub.kind == "newHeads";
    }
  }

  /** The query that a block asks for a log subscription: from the height after the last one served, or
      the block itself the first time, to the block. */
  function Question(r: WsSubs.Row, height: int): Criteria {
    LogRange(r.sub.filter, if r.sub.lastBlock >= 0 then r.sub.lastBlock + 1 else height, height)
  }

  /** Every log subscription up to row i that has not heard of the block gets an answer. */
  predicate AllAnswer(subs: seq<WsSubs.Row>, i: nat, height: int, query: Query)
    requires i < |subs|
  {
    forall j :: 0 <= j <= i && subs[j].sub.kind == "logs" && height > subs[j].sub.lastBlock ==>
      query(Question(subs[j], height)).Some?
  }

  lemma FetchAsks(r: WsSubs.Row, height: int, query: Query)
    ensures Fetch(r, height, Some(query)) == query(Question(r, height)) && Fetch(r, height, None) == Some([])
  {
    hide LogRange;
  }

  lemma AnswersClear(subs: seq<WsSubs.Row>, i: nat, height: int, query: Query)
    requires i < |subs| && AllAnswer(subs, i, height, query)
    ensures Clear(subs, i + 1, height, Some(query)) && Clear(subs, i + 1, height, None)
  {
    hide Fetch, Question;
    forall j | 0 <= j <= i && Due(subs[j], height)
      ensures Fetch(subs[j], height, Some(query)).Some? && Fetch(subs[j], height, None).Some?
    {
      FetchAsks(subs[j], height, query);
    }
  }

  /** A block sends a log subscription that has not heard of it what the query answers to its question,
      each log once and in order, if nobody before it, nor it, gets an exception; without a chain it
      sends nothing. */
  lemma LogsAreAsked(subs: seq<WsSubs.Row>, i: nat, height: int, query: Query)
    requires i < |subs| && IncreasingIds(subs) && AllAnswer(subs, i, height, query)
    requires subs[i].sub.kind == "logs" && height > subs[i].sub.lastBlock
    ensures query(Question(subs[i], height)).Some?
    ensures LogsFor(ServeLogs(subs, |subs|, height, Some(query)).sent, subs[i].sid)
         == query(Question(subs[i], height)).value
    ensures LogsFor(ServeLogs(subs, |subs|, height, None).sent, subs[i].sid) == []
  {
    AnswersClear(subs, i, height, query);
    FetchAsks(subs[i], height, query);
    assert Due(subs[i], height);
    assert query(Question(subs[i], height)).Some?;
    hide ServeLogs, LogsFor, IncreasingIds, Question, Clear, AllAnswer, Fetch, Due;
    SentToRow(subs, |subs|, i, height, Some(query));
    SentToRow(subs, |subs|, i, height, None);
    RaisedExactly(subs, i + 1, height, Some(query));
    RaisedExactly(subs, i + 1, height, None);
  }
}
