/** eth_subscribe over WebSocket (api/eth_ws_subscriptions.py): the two-way index of
    subscriptions and connections, and the log ranges each subscription is served. The
    dict of subscriptions is the sequence of its entries in insertion order. */
module WsSubs {
  import opened Wrappers
  import opened Text
  import opened Filters
  import opened FilterRuns

  datatype Sub = Sub(kind: string, filter: Criteria, connId: int, lastBlock: int)

  datatype Row = Row(sid: int, sub: Sub)

  datatype Registry = Registry(nextId: int, subs: seq<Row>, connSubs: map<int, set<int>>)

  predicate Supported(kind: string) {
    kind == "newHeads" || kind == "logs" || kind == "newPendingTransactions" || kind == "syncing"
  }

  function IndexOf(subs: seq<Row>, sid: int): (i: nat)
    ensures i <= |subs|
    ensures i < |subs| ==> subs[i].sid == sid
    ensures forall k :: 0 <= k < i ==> subs[k].sid != sid
  {
    if subs == [] || subs[0].sid == sid then 0 else 1 + IndexOf(subs[1..], sid)
  }

  predicate Has(subs: seq<Row>, sid: int) {
    IndexOf(subs, sid) < |subs|
  }

  function Drop(subs: seq<Row>, sid: int): seq<Row> {
    var i := IndexOf(subs, sid);
    if i < |subs| then subs[..i] + subs[i + 1..] else subs
  }

  function DropAll(subs: seq<Row>, gone: set<int>): seq<Row>
    decreases |subs|
  {
    if subs == [] then []
    else DropAll(subs[..|subs| - 1], gone) + if subs[|subs| - 1].sid in gone then [] else [subs[|subs| - 1]]
  }

  function ConnSet(connSubs: map<int, set<int>>, connId: int): set<int> {
    if connId in connSubs then connSubs[connId] else {}
  }

  // ---------------------------------------------------------------- the operations

  function Subscribed(g: Registry, connId: int, kind: string, filter: Criteria): Registry {
    if !Supported(Strip(kind)) then g
    else
      Registry(g.nextId + 1, g.subs + [Row(g.nextId, Sub(Strip(kind), filter, connId, -1))],
               g.connSubs[connId := ConnSet(g.connSubs, connId) + {g.nextId}])
  }

  /** The id is a subscription of this connection. */
  predicate Owned(g: Registry, connId: int, raw: RawId) {
    var id := ParseId(raw);
    id.Number? && Has(g.subs, id.value) && g.subs[IndexOf(g.subs, id.value)].sub.connId == connId
  }

  function Unsubscribed(g: Registry, connId: int, raw: RawId): Registry {
    if !Owned(g, connId, raw) then g
    else
      var sid := ParseId(raw).value;
      g.(subs := Drop(g.subs, sid),
         connSubs := if connId in g.connSubs then g.connSubs[connId := g.connSubs[connId] - {sid}] else g.connSubs)
  }

  function Disconnected(g: Registry, connId: int): Registry {
    g.(subs := DropAll(g.subs, ConnSet(g.connSubs, connId)), connSubs := g.connSubs - {connId})
  }

  datatype Notice = Head(sid: int) | Log(sid: int, log: string)

  function Heads(subs: seq<Row>): seq<Notice>
    decreases |subs|
  {
    if subs == [] then []
    else
      Heads(subs[..|subs| - 1]) + if subs[|subs| - 1].sub.kind == "newHeads" then [Head(subs[|subs| - 1].sid)] else []
  }

  /** This block is served to the subscription. */
  predicate Due(r: Row, height: int) {
    r.sub.kind == "logs" && height > r.sub.lastBlock
  }

  function RangeFor(r: Row, height: int): Range {
    Range(if r.sub.lastBlock >= 0 then r.sub.lastBlock + 1 else height, height)
  }

  /** query_logs, or no logs without a chain. */
  function Fetch(r: Row, height: int, query: Option<Query>): Option<seq<string>> {
    if query.None? then Some([])
    else query.value(LogRange(r.sub.filter, RangeFor(r, height).from, RangeFor(r, height).to))
  }

  function LogNotices(sid: int, logs: seq<string>): (n: seq<Notice>)
    ensures |n| == |logs| && forall i :: 0 <= i < |logs| ==> n[i] == Log(sid, logs[i])
  {
    seq(|logs|, i requires 0 <= i < |logs| => Log(sid, logs[i]))
  }

  datatype Round = Round(subs: seq<Row>, sent: seq<Notice>, raised: bool)

  /** The loop over the first n subscriptions; a query that raises ends it. */
  function ServeLogs(subs: seq<Row>, n: nat, height: int, query: Option<Query>): (r: Round)
    requires n <= |subs|
    ensures |r.subs| == |subs| && forall k :: n <= k < |subs| ==> r.subs[k] == subs[k]
    decreases n
  {
    if n == 0 then Round(subs, [], false)
    else
      var r := ServeLogs(subs, n - 1, height, query);
      var row := subs[n - 1];
      if r.raised || !Due(row, height) then r
      else
        var logs := Fetch(row, height, query);
        if logs.None? then r.(raised := true)
        else Round(r.subs[n - 1 := row.(sub := row.sub.(lastBlock := height))],
                   r.sent + LogNotices(row.sid, logs.value), false)
  }

  // ---------------------------------------------------------------- the object

  class EthWsSubscriptionManager {
    var nextId: int
    var subs: seq<Row>
    var connSubs: map<int, set<int>>
    var sent: seq<Notice>      // what send_fn was given

    constructor ()
      ensures Value() == Registry(1, [], map[]) && sent == []
    {
      nextId, subs, connSubs, sent := 1, [], map[], [];
    }

    function Value(): Registry
      reads this
    {
      Registry(nextId, subs, connSubs)
    }

    method Subscribe(connId: int, kind: string, filter: Criteria) returns (id: Option<string>)
      modifies this`nextId, this`subs, this`connSubs
      ensures Value() == Subscribed(old(Value()), connId, kind, filter)
      ensures id == if Supported(Strip(kind)) then Some(Hex(old(nextId))) else None
    {
      var stripped := Strip(kind);
      if !Supported(stripped) {
        return None;
      }
      var sid := nextId;
      nextId := nextId + 1;
      subs := subs + [Row(sid, Sub(stripped, filter, connId, -1))];
      if connId !in connSubs {
        connSubs := connSubs[connId := {}];
      }
      connSubs := connSubs[connId := connSubs[connId] + {sid}];
      return Some(Hex(sid));
    }

    method Unsubscribe(connId: int, raw: RawId) returns (ok: bool)
      modifies this`subs, this`connSubs
      ensures ok == Owned(old(Value()), connId, raw)
      ensures Value() == Unsubscribed(old(Value()), connId, raw)
    {
      var parsed := ParseId(raw);
      if parsed.NoNumber? {
        return false;
      }
      var i := IndexOf(subs, parsed.value);
      if i == |subs| || subs[i].sub.connId != connId {
        return false;
      }
      subs := subs[..i] + subs[i + 1..];
      if connId in connSubs {
        connSubs := connSubs[connId := connSubs[connId] - {parsed.value}];
      }
      return true;
    }

    method DropConnection(connId: int)
      modifies this`subs, this`connSubs
      ensures Value() == Disconnected(old(Value()), connId)
    {
      subs := DropAll(subs, ConnSet(connSubs, connId));
      connSubs := connSubs - {connId};
    }

    method OnNewBlock(height: int, query: Option<Query>) returns (raised: bool)
      modifies this`subs, this`sent
      ensures var r := ServeLogs(old(subs), |old(subs)|, height, query);
        subs == r.subs && sent == old(sent) + Heads(old(subs)) + r.sent && raised == r.raised
    {
      for i := 0 to |subs|
        invariant subs == old(subs) && sent == old(sent) + Heads(subs[..i])
      {
        assert subs[..i + 1][..i] == subs[..i];
        if subs[i].sub.kind == "newHeads" {
          sent := sent + [Head(subs[i].sid)];
        }
      }
      assert subs[..|subs|] == subs;
      raised := SendLogs(height, query);
    }

    method SendLogs(height: int, query: Option<Query>) returns (raised: bool)
      modifies this`subs, this`sent
      ensures var r := ServeLogs(old(subs), |old(subs)|, height, query);
        subs == r.subs && sent == old(sent) + r.sent && raised == r.raised
    {
      hide Fetch, LogNotices;
      var listed := subs;
      for i := 0 to |listed|
        invariant var r := ServeLogs(old(subs), i, height, query);
          subs == r.subs && !r.raised && sent == old(sent) + r.sent
      {
        var row := listed[i];
        if row.sub.kind == "logs" && height > row.sub.lastBlock {
          var logs := QueryLogs(row, height, query);
          if logs.None? {
            RaisedStays(listed, i + 1, |listed|, height, query);
            return true;
          }
          sent := sent + LogNotices(row.sid, logs.value);
          subs := subs[i := row.(sub := row.sub.(lastBlock := height))];
        }
      }
      return false;
    }

    method QueryLogs(row: Row, height: int, query: Option<Query>) returns (logs: Option<seq<string>>)
      ensures logs == Fetch(row, height, query)
    {
      var filter := row.sub.filter;
      filter := filter["fromBlock" := Hex(if row.sub.lastBlock >= 0 then row.sub.lastBlock + 1 else height)];
      filter := filter["toBlock" := Hex(height)];
      if query.None? {
        return Some([]);
      }
      return query.value(filter);
    }
  }

  lemma {:induction false} RaisedStays(subs: seq<Row>, n: nat, m: nat, height: int, query: Option<Query>)
    requires n <= m <= |subs| && ServeLogs(subs, n, height, query).raised
    ensures ServeLogs(subs, m, height, query) == ServeLogs(subs, n, height, query)
    decreases m
  {
    if n < m {
      RaisedStays(subs, n, m - 1, height, query);
    }
  }

  // ---------------------------------------------------------------- the mirror

  datatype Event =
    | Subscribing(connId: int, kind: string, filter: Criteria)
    | Unsubscribing(connId: int, raw: RawId)
    | Dropping(connId: int)
    | Block(height: int, query: Option<Query>)

  function Apply(g: Registry, e: Event): Registry {
    match e
    case Subscribing(connId, kind, filter) => Subscribed(g, connId, kind, filter)
    case Unsubscribing(connId, raw) => Unsubscribed(g, connId, raw)
    case Dropping(connId) => Disconnected(g, connId)
    case Block(height, query) => g.(subs := ServeLogs(g.subs, |g.subs|, height, query).subs)
  }

  function Run(g: Registry, events: seq<Event>): Registry
    decreases |events|
  {
    if events == [] then g else Apply(Run(g, events[..|events| - 1]), events[|events| - 1])
  }

  /** Ids stand in the order they were given, and none is ahead of the counter. */
  predicate Ordered(g: Registry) {
    && (forall i, j :: 0 <= i < j < |g.subs| ==> g.subs[i].sid < g.subs[j].sid)
    && (forall i :: 0 <= i < |g.subs| ==> g.subs[i].sid < g.nextId)
  }

  predicate OwnedBy(subs: seq<Row>, sid: int, connId: int) {
    exists i :: 0 <= i < |subs| && subs[i].sid == sid && subs[i].sub.connId == connId
  }

  /** A subscription belongs to a connection exactly when the connection lists it. */
  ghost predicate Mirrored(g: Registry) {
    forall connId: int, sid: int :: sid in ConnSet(g.connSubs, connId) <==> OwnedBy(g.subs, sid, connId)
  }

  lemma SubscribedMirrors(g: Registry, connId: int, kind: string, filter: Criteria)
    requires Ordered(g) && Mirrored(g)
    ensures Ordered(Subscribed(g, connId, kind, filter)) && Mirrored(Subscribed(g, connId, kind, filter))
  {
    var h := Subscribed(g, connId, kind, filter);
    if Supported(Strip(kind)) {
      forall c: int, sid: int ensures sid in ConnSet(h.connSubs, c) <==> OwnedBy(h.subs, sid, c) {
        assert sid in ConnSet(g.connSubs, c) <==> OwnedBy(g.subs, sid, c);
        if OwnedBy(g.subs, sid, c) {
          var i :| 0 <= i < |g.subs| && g.subs[i].sid == sid && g.subs[i].sub.connId == c;
          assert h.subs[i] == g.subs[i];
        }
        assert h.subs[|g.subs|].sid == g.nextId && h.subs[|g.subs|].sub.connId == connId;
      }
    }
  }

  lemma UnsubscribedMirrors(g: Registry, connId: int, raw: RawId)
    requires Ordered(g) && Mirrored(g)
    ensures Ordered(Unsubscribed(g, connId, raw)) && Mirrored(Unsubscribed(g, connId, raw))
  {
    hide ParseNumber;
    var h := Unsubscribed(g, connId, raw);
    if Owned(g, connId, raw) {
      var gone := ParseId(raw).value;
      assert OwnedBy(g.subs, gone, connId);
      assert gone in ConnSet(g.connSubs, connId);
      assert Ordered(h);
      forall c: int, sid: int ensures sid in ConnSet(h.connSubs, c) <==> OwnedBy(h.subs, sid, c) {
        assert sid in ConnSet(g.connSubs, c) <==> OwnedBy(g.subs, sid, c);
        DropOwned(g, gone, sid, c);
        hide Ordered, OwnedBy, Drop;
        assert OwnedBy(g.subs, gone, c) <==> gone in ConnSet(g.connSubs, c);
      }
    }
  }

  /** Dropping a subscription takes it and no other. */
  lemma DropOwned(g: Registry, gone: int, sid: int, c: int)
    requires Ordered(g) && Has(g.subs, gone)
    ensures OwnedBy(Drop(g.subs, gone), sid, c) <==> OwnedBy(g.subs, sid, c) && sid != gone
  {
    var at, after := IndexOf(g.subs, gone), Drop(g.subs, gone);
    if OwnedBy(g.subs, sid, c) && sid != gone {
      var i :| 0 <= i < |g.subs| && g.subs[i].sid == sid && g.subs[i].sub.connId == c;
      assert after[if i < at then i else i - 1] == g.subs[i];
    }
    if OwnedBy(after, sid, c) {
      var i :| 0 <= i < |after| && after[i].sid == sid && after[i].sub.connId == c;
      assert g.subs[if i < at then i else i + 1] == after[i];
    }
  }

  lemma {:induction false} DropAllOk(subs: seq<Row>, gone: set<int>)
    ensures forall sid, c :: OwnedBy(DropAll(subs, gone), sid, c) <==> OwnedBy(subs, sid, c) && sid !in gone
    ensures (forall i, j :: 0 <= i < j < |subs| ==> subs[i].sid < subs[j].sid) ==>
      forall i, j :: 0 <= i < j < |DropAll(subs, gone)| ==> DropAll(subs, gone)[i].sid < DropAll(subs, gone)[j].sid
    decreases |subs|
  {
    if subs != [] {
      var front, last := subs[..|subs| - 1], subs[|subs| - 1];
      DropAllOk(front, gone);
      var kept := DropAll(front, gone);
      assert subs == front + [last];
      forall sid, c ensures OwnedBy(DropAll(subs, gone), sid, c) <==> OwnedBy(subs, sid, c) && sid !in gone {
        OwnedByOneMore(front, last, sid, c);
        OwnedByOneMore(kept, last, sid, c);
        assert OwnedBy(kept, sid, c) <==> OwnedBy(front, sid, c) && sid !in gone;
        assert DropAll(subs, gone) == if last.sid in gone then kept else kept + [last];
      }
      forall i | 0 <= i < |kept| ensures exists k :: 0 <= k < |front| && front[k].sid == kept[i].sid {
        assert OwnedBy(kept, kept[i].sid, kept[i].sub.connId);
        assert OwnedBy(front, kept[i].sid, kept[i].sub.connId);
      }
    }
  }

  lemma OwnedByOneMore(subs: seq<Row>, last: Row, sid: int, c: int)
    ensures OwnedBy(subs + [last], sid, c) <==> OwnedBy(subs, sid, c) || (last.sid == sid && last.sub.connId == c)
  {
    if OwnedBy(subs, sid, c) {
      var i :| 0 <= i < |subs| && subs[i].sid == sid && subs[i].sub.connId == c;
      assert (subs + [last])[i] == subs[i];
    }
    assert (subs + [last])[|subs|] == last;
  }

  lemma SameOwner(g: Registry, sid: int, a: int, b: int)
    requires Ordered(g) && OwnedBy(g.subs, sid, a) && OwnedBy(g.subs, sid, b)
    ensures a == b
  {
  }

  lemma DisconnectedMirrors(g: Registry, connId: int)
    requires Ordered(g) && Mirrored(g)
    ensures Ordered(Disconnected(g, connId)) && Mirrored(Disconnected(g, connId))
    ensures forall sid :: !OwnedBy(Disconnected(g, connId).subs, sid, connId)
  {
    var h, gone := Disconnected(g, connId), ConnSet(g.connSubs, connId);
    DropAllOk(g.subs, gone);
    forall c: int, sid: int ensures sid in ConnSet(h.connSubs, c) <==> OwnedBy(h.subs, sid, c) {
      assert sid in ConnSet(g.connSubs, c) <==> OwnedBy(g.subs, sid, c);
      assert sid in gone <==> OwnedBy(g.subs, sid, connId);
      if c != connId && OwnedBy(g.subs, sid, c) && OwnedBy(g.subs, sid, connId) {
        SameOwner(g, sid, c, connId);
      }
    }
    forall i | 0 <= i < |h.subs| ensures h.subs[i].sid < h.nextId {
      assert OwnedBy(h.subs, h.subs[i].sid, h.subs[i].sub.connId);
      assert OwnedBy(g.subs, h.subs[i].sid, h.subs[i].sub.connId);
    }
  }

  /** Serving a block changes nothing but the last blocks served. */
  lemma {:induction false} ServeKeeps(subs: seq<Row>, n: nat, height: int, query: Option<Query>)
    requires n <= |subs|
    ensures var r := ServeLogs(subs, n, height, query);
      forall k :: 0 <= k < |subs| ==>
        && r.subs[k].sid == subs[k].sid && r.subs[k].sub.connId == subs[k].sub.connId
        && r.subs[k].sub.kind == subs[k].sub.kind && r.subs[k].sub.filter == subs[k].sub.filter
    decreases n
  {
    hide LogRange;
    if n > 0 {
      ServeKeeps(subs, n - 1, height, query);
    }
  }

  lemma BlockMirrors(g: Registry, height: int, query: Option<Query>)
    requires Ordered(g) && Mirrored(g)
    ensures Ordered(Apply(g, Block(height, query))) && Mirrored(Apply(g, Block(height, query)))
  {
    ServeKeeps(g.subs, |g.subs|, height, query);
    hide ServeLogs;
    var h := Apply(g, Block(height, query));
    forall c: int, sid: int ensures sid in ConnSet(h.connSubs, c) <==> OwnedBy(h.subs, sid, c) {
      assert sid in ConnSet(g.connSubs, c) <==> OwnedBy(g.subs, sid, c);
      if OwnedBy(g.subs, sid, c) {
        var i :| 0 <= i < |g.subs| && g.subs[i].sid == sid && g.subs[i].sub.connId == c;
        assert h.subs[i].sid == sid;
      }
    }
  }

  /** After any run the two indexes agree, and every id is used once. */
  lemma {:induction false} IndexesMirror(events: seq<Event>)
    ensures Ordered(Run(Registry(1, [], map[]), events)) && Mirrored(Run(Registry(1, [], map[]), events))
    decreases |events|
  {
    hide Ordered, Mirrored, Subscribed, Unsubscribed, Disconnected, ServeLogs;
    if events == [] {
      EmptyMirrors();
    } else {
      var g := Run(Registry(1, [], map[]), events[..|events| - 1]);
      IndexesMirror(events[..|events| - 1]);
      match events[|events| - 1] {
        case Subscribing(connId, kind, filter) => SubscribedMirrors(g, connId, kind, filter);
        case Unsubscribing(connId, raw) => UnsubscribedMirrors(g, connId, raw);
        case Dropping(connId) => DisconnectedMirrors(g, connId);
        case Block(height, query) => BlockMirrors(g, height, query);
      }
    }
  }

  lemma EmptyMirrors()
    ensures Ordered(Registry(1, [], map[])) && Mirrored(Registry(1, [], map[]))
  {
  }

  // ---------------------------------------------------------------- log ranges

  /** The ranges a subscription was served from, over a run. */
  function Served(g: Registry, events: seq<Event>, sid: int): seq<Range>
    decreases |events|
  {
    if events == [] then []
    else
      var front, e := events[..|events| - 1], events[|events| - 1];
      Served(g, front, sid) + if e.Block? then ServedBy(Run(g, front), e.height, e.query, sid) else []
  }

  /** What one block served to the subscription. */
  function ServedBy(g: Registry, height: int, query: Option<Query>, sid: int): seq<Range> {
    var i := IndexOf(g.subs, sid);
    if i == |g.subs| || !Due(g.subs[i], height) || ServeLogs(g.subs, i + 1, height, query).raised then []
    else [RangeFor(g.subs[i], height)]
  }

  /** A row is updated exactly when it is due and no query up to its own raised. */
  lemma {:induction false} ServedRow(subs: seq<Row>, n: nat, i: nat, height: int, query: Option<Query>)
    requires i < n <= |subs|
    ensures ServeLogs(subs, n, height, query).subs[i]
         == (if Due(subs[i], height) && !ServeLogs(subs, i + 1, height, query).raised then
               subs[i].(sub := subs[i].sub.(lastBlock := height))
             else subs[i])
    decreases n
  {
    hide LogRange, Fetch;
    if n > i + 1 {
      ServedRow(subs, n - 1, i, height, query);
    }
  }

  /** The first range is one block, each next one starts right after the last, and the
      last block served is where the next range will start from. */
  predicate Consecutive(ranges: seq<Range>, last: int) {
    if ranges == [] then last == -1
    else
      && last >= 0 && ranges[0].from == ranges[0].to
      && Tiles(ranges, ranges[0].from, last)
  }

  function SubOf(g: Registry, sid: int): Option<Sub> {
    var i := IndexOf(g.subs, sid);
    if i < |g.subs| then Some(g.subs[i].sub) else None
  }

  lemma SubAt(g: Registry, i: nat)
    requires Ordered(g) && i < |g.subs|
    ensures SubOf(g, g.subs[i].sid) == Some(g.subs[i].sub)
  {
  }

  /** Away from blocks a subscription stays as it is or goes. */
  lemma RowStays(g: Registry, e: Event, sid: int)
    requires Ordered(g) && Ordered(Apply(g, e)) && !e.Block? && sid < g.nextId
    ensures SubOf(Apply(g, e), sid) == SubOf(g, sid) || SubOf(Apply(g, e), sid) == None
  {
    hide ParseNumber, Hex;
    var h := Apply(g, e);
    var i := IndexOf(h.subs, sid);
    if i < |h.subs| {
      match e {
        case Subscribing(_, _, _) => SubAt(g, i);
        case Unsubscribing(_, raw) =>
          if h.subs != g.subs {
            var at := IndexOf(g.subs, ParseId(raw).value);
            var j := if i < at then i else i + 1;
            assert h.subs[i] == g.subs[j];
            SubAt(g, j);
          }
        case Dropping(connId) =>
          DropAllRow(g.subs, ConnSet(g.connSubs, connId), i);
          var j :| 0 <= j < |g.subs| && g.subs[j] == h.subs[i];
          SubAt(g, j);
      }
    }
  }

  lemma {:induction false} DropAllRow(subs: seq<Row>, gone: set<int>, i: nat)
    requires i < |DropAll(subs, gone)|
    ensures DropAll(subs, gone)[i] in subs
    decreases |subs|
  {
    if i < |DropAll(subs[..|subs| - 1], gone)| {
      DropAllRow(subs[..|subs| - 1], gone, i);
    }
  }

  /** A block moves the last block of a subscription exactly as it serves it. */
  lemma BlockRow(g: Registry, height: int, query: Option<Query>, sid: int)
    requires Ordered(g) && SubOf(g, sid).Some?
    ensures SubOf(Apply(g, Block(height, query)), sid)
         == (if ServedBy(g, height, query, sid) == [] then SubOf(g, sid)
             else Some(SubOf(g, sid).value.(lastBlock := height)))
    ensures ServedBy(g, height, query, sid) != [] ==>
      height > SubOf(g, sid).value.lastBlock
      && ServedBy(g, height, query, sid) == [RangeFor(Row(sid, SubOf(g, sid).value), height)]
  {
    var h, i := Apply(g, Block(height, query)), IndexOf(g.subs, sid);
    hide Fetch;
    ServedRow(g.subs, |g.subs|, i, height, query);
    ServeKeeps(g.subs, |g.subs|, height, query);
    assert Ordered(h);
    SubAt(h, i);
    hide ServeLogs, Ordered;
  }

  /** No query of the first n subscriptions that are due raises. */
  predicate Clear(subs: seq<Row>, n: nat, height: int, query: Option<Query>)
    requires n <= |subs|
  {
    forall j :: 0 <= j < n && Due(subs[j], height) ==> Fetch(subs[j], height, query).Some?
  }

  lemma {:induction false} RaisedExactly(subs: seq<Row>, n: nat, height: int, query: Option<Query>)
    requires n <= |subs|
    ensures ServeLogs(subs, n, height, query).raised <==> !Clear(subs, n, height, query)
    decreases n
  {
    hide Fetch, LogNotices;
    if n > 0 {
      RaisedExactly(subs, n - 1, height, query);
    }
  }

  /** The subscription is there, for logs, and no query before it or its own raises. */
  predicate Reached(g: Registry, height: int, query: Option<Query>, sid: int) {
    var i := IndexOf(g.subs, sid);
    i < |g.subs| && g.subs[i].sub.kind == "logs" && Clear(g.subs, i + 1, height, query)
  }

  /** The highest block that reached the subscription, or -1 before the first. */
  function Heard(g: Registry, events: seq<Event>, sid: int): int
    decreases |events|
  {
    if events == [] then -1
    else
      var front, e := events[..|events| - 1], events[|events| - 1];
      var before := Heard(g, front, sid);
      if e.Block? && e.height > before && Reached(Run(g, front), e.height, e.query, sid) then e.height else before
  }

  /** A block serves the subscription exactly when it reaches it and is news to it. */
  lemma ServedWhenReached(g: Registry, height: int, query: Option<Query>, sid: int)
    requires SubOf(g, sid).Some?
    ensures ServedBy(g, height, query, sid) != []
      <==> height > SubOf(g, sid).value.lastBlock && Reached(g, height, query, sid)
  {
    var i := IndexOf(g.subs, sid);
    RaisedExactly(g.subs, i + 1, height, query);
    hide ServeLogs, Fetch, Clear;
  }

  /** From its creation a log subscription is served one block first and then, at each
      later block that reaches it, every height since, up to the highest such block: no
      gap, no overlap, whatever other subscriptions do and whatever queries raise. */
  lemma {:induction false} ServedWithoutGaps(g: Registry, events: seq<Event>, sid: int)
    requires Ordered(g) && Mirrored(g) && sid < g.nextId && SubOf(g, sid).Some? && SubOf(g, sid).value.lastBlock == -1
    ensures Ordered(Run(g, events)) && Mirrored(Run(g, events)) && sid < Run(g, events).nextId
    ensures Consecutive(Served(g, events, sid), Heard(g, events, sid)) && Heard(g, events, sid) >= -1
    ensures SubOf(Run(g, events), sid).Some? ==>
      SubOf(Run(g, events), sid).value.lastBlock == Heard(g, events, sid)
    decreases |events|
  {
    hide Ordered, Mirrored, SubOf, ServedBy, Consecutive, Apply, Tiles, Reached;
    if events == [] {
      assert Consecutive([], -1) by { NothingServed(); }
    } else {
      var front, e := events[..|events| - 1], events[|events| - 1];
      ServedWithoutGaps(g, front, sid);
      var t, last := Run(g, front), Heard(g, front, sid);
      var before := Served(g, front, sid);
      StepMirrors(t, e);
      assert before + [] == before;
      if e.Block? {
        GoneUnserved(t, e.height, e.query, sid);
        if SubOf(t, sid).Some? {
          BlockRow(t, e.height, e.query, sid);
          ServedWhenReached(t, e.height, e.query, sid);
          var now := ServedBy(t, e.height, e.query, sid);
          if now != [] {
            ConsecutiveMore(before, last, now[0], e.height);
            assert now == [now[0]];
          }
        }
      } else {
        RowStays(t, e, sid);
      }
    }
  }

  /** The notices among these for one subscription. */
  function LogsFor(sent: seq<Notice>, sid: int): seq<string>
    decreases |sent|
  {
    if sent == [] then []
    else
      var last := sent[|sent| - 1];
      LogsFor(sent[..|sent| - 1], sid) + if last.Log? && last.sid == sid then [last.log] else []
  }

  lemma {:induction false} LogsForMore(a: seq<Notice>, logs: seq<string>, owner: int, sid: int)
    ensures LogsFor(a + LogNotices(owner, logs), sid) == LogsFor(a, sid) + if owner == sid then logs else []
    decreases |logs|
  {
    hide LogsFor;
    var b := LogNotices(owner, logs);
    if logs == [] {
      assert a + b == a;
    } else {
      var front, last := logs[..|logs| - 1], logs[|logs| - 1];
      LogsForMore(a, front, owner, sid);
      assert a + b == (a + LogNotices(owner, front)) + [Log(owner, last)];
      LogsForLast(a + LogNotices(owner, front), Log(owner, last), sid);
      assert logs == front + [last];
    }
  }

  lemma LogsForLast(a: seq<Notice>, n: Notice, sid: int)
    ensures LogsFor(a + [n], sid) == LogsFor(a, sid) + if n.Log? && n.sid == sid then [n.log] else []
  {
    assert (a + [n])[..|a|] == a;
  }

  predicate IncreasingIds(subs: seq<Row>) {
    forall a, b :: 0 <= a < b < |subs| ==> subs[a].sid < subs[b].sid
  }

  /** What the n-th subscription adds to what row i is sent. */
  lemma SentByOne(subs: seq<Row>, n: nat, i: nat, height: int, query: Option<Query>)
    requires 0 < n <= |subs| && i < |subs| && IncreasingIds(subs)
    ensures var r, t := ServeLogs(subs, n - 1, height, query), ServeLogs(subs, n, height, query);
      LogsFor(t.sent, subs[i].sid)
      == LogsFor(r.sent, subs[i].sid)
         + if i == n - 1 && Due(subs[i], height) && !t.raised then Fetch(subs[i], height, query).Or([]) else []
  {
    hide Fetch, LogNotices, LogsFor;
    var r := ServeLogs(subs, n - 1, height, query);
    assert LogsFor(r.sent, subs[i].sid) + [] == LogsFor(r.sent, subs[i].sid);
    if !r.raised && Due(subs[n - 1], height) && Fetch(subs[n - 1], height, query).Some? {
      LogsForMore(r.sent, Fetch(subs[n - 1], height, query).value, subs[n - 1].sid, subs[i].sid);
    }
  }

  /** What a block sends to a subscription is what the query answers for its range, once,
      and nothing when it is not served. */
  lemma {:induction false} SentToRow(subs: seq<Row>, n: nat, i: nat, height: int, query: Option<Query>)
    requires n <= |subs| && i < |subs| && IncreasingIds(subs)
    ensures LogsFor(ServeLogs(subs, n, height, query).sent, subs[i].sid)
         == if i < n && Due(subs[i], height) && !ServeLogs(subs, i + 1, height, query).raised then
              Fetch(subs[i], height, query).Or([])
            else []
    decreases n
  {
    hide Fetch, LogNotices, IncreasingIds, ServeLogs, LogsFor, Due;
    if n == 0 {
      NothingSent(subs, height, query, subs[i].sid);
    } else {
      SentToRow(subs, n - 1, i, height, query);
      SentByOne(subs, n, i, height, query);
    }
  }

  lemma NothingSent(subs: seq<Row>, height: int, query: Option<Query>, sid: int)
    ensures LogsFor(ServeLogs(subs, 0, height, query).sent, sid) == []
  {
  }

  lemma NothingServed()
    ensures Consecutive([], -1)
  {
  }

  lemma StepMirrors(g: Registry, e: Event)
    requires Ordered(g) && Mirrored(g)
    ensures Ordered(Apply(g, e)) && Mirrored(Apply(g, e)) && Apply(g, e).nextId >= g.nextId
  {
    match e {
      case Subscribing(connId, kind, filter) => SubscribedMirrors(g, connId, kind, filter);
      case Unsubscribing(connId, raw) => UnsubscribedMirrors(g, connId, raw);
      case Dropping(connId) => DisconnectedMirrors(g, connId);
      case Block(height, query) => BlockMirrors(g, height, query);
    }
    hide Ordered, Mirrored, ServeLogs;
  }

  lemma GoneUnserved(g: Registry, height: int, query: Option<Query>, sid: int)
    ensures SubOf(g, sid).None? ==>
      && ServedBy(g, height, query, sid) == [] && SubOf(Apply(g, Block(height, query)), sid).None?
      && !Reached(g, height, query, sid)
  {
    ServeKeeps(g.subs, |g.subs|, height, query);
    hide ServeLogs, Clear;
  }

  lemma ConsecutiveMore(ranges: seq<Range>, last: int, r: Range, height: int)
    requires Consecutive(ranges, last) && last >= -1 && height > last
    requires r == Range(if last >= 0 then last + 1 else height, height)
    ensures Consecutive(ranges + [r], height)
  {
    var logsOf: (int, int) -> seq<string> := (a: int, b: int) => [];
    if ranges == [] {
      assert ranges + [r] == [r];
      assert Tiles([r][..0], r.from, r.from - 1);
    } else {
      TilesMore(ranges, ranges[0].from, last, r, logsOf);
    }
  }
}
