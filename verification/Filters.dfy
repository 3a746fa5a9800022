/** Polling filters of the HTTP JSON-RPC interface (api/eth_filters.py). */
module Filters {
  import opened Wrappers
  import opened Collections
  import opened Text

  const FILTER_TTL_SEC := 300

  type Criteria = map<string, string>

  /** What the chain shows at one moment; "" stands for a missing block or hash. */
  datatype Chain = Chain(height: int, hashAt: int -> string)

  /** A query answers with logs or raises. */
  type Query = Criteria -> Option<seq<string>>

  datatype Row =
    | Logs(filter: Criteria, lastHeight: int, lastAccess: int)
    | Blocks(lastHeight: int, lastAccess: int)
    | PendingTxs(seen: set<string>, lastAccess: int)

  datatype Store = Store(nextId: int, filters: map<int, Row>)

  datatype RawId = IdText(text: string) | IdNumber(number: int) | NotAnId

  function ParseId(raw: RawId): Parsed {
    match raw
    case IdText(s) => ParseNumber(s)
    case IdNumber(n) => Number(n)
    case NotAnId => NoNumber
  }

  function TipOf(chain: Option<Chain>): int {
    if chain.Some? then chain.value.height else 0
  }

  function WithHashPrefix(h: string): string {
    if StartsHex(h) then h else "0x" + h
  }

  /** The hashes of the blocks at heights from..to that have one. */
  function HashesOf(hashAt: int -> string, from: int, to: int): seq<string>
    decreases (to - from)
  {
    if to < from then []
    else HashesOf(hashAt, from, to - 1) + if hashAt(to) != "" then [WithHashPrefix(hashAt(to))] else []
  }

  function NonEmpty(rows: seq<string>): seq<string>
    decreases |rows|
  {
    if rows == [] then []
    else NonEmpty(rows[..|rows| - 1]) + if rows[|rows| - 1] != "" then [rows[|rows| - 1]] else []
  }

  function Unseen(hashes: seq<string>, seen: set<string>): seq<string>
    decreases |hashes|
  {
    if hashes == [] then []
    else
      Unseen(hashes[..|hashes| - 1], seen) + if hashes[|hashes| - 1] in seen then [] else [hashes[|hashes| - 1]]
  }

  // ---------------------------------------------------------------- the operations

  function Prune(s: Store, now: int): Store {
    s.(filters := map id | id in s.filters && now - s.filters[id].lastAccess <= FILTER_TTL_SEC :: s.filters[id])
  }

  function Create(s: Store, now: int, row: Row): (Store, string) {
    var t := Prune(s, now);
    (Store(t.nextId + 1, t.filters[t.nextId := row]), Hex(t.nextId))
  }

  function Touched(row: Row, now: int): Row {
    row.(lastAccess := now)
  }

  function LogRange(filter: Criteria, from: int, to: int): Criteria {
    filter["fromBlock" := Hex(from)]["toBlock" := Hex(to)]
  }

  datatype Answer = Changes(items: seq<string>) | QueryRaised

  function PollLogs(row: Row, chain: Option<Chain>, query: Query): (Answer, Row)
    requires row.Logs?
  {
    var tip := TipOf(chain);
    if tip <= row.lastHeight then (Changes([]), row)
    else
      var logs := query(LogRange(row.filter, row.lastHeight + 1, tip));
      if logs.None? then (QueryRaised, row) else (Changes(logs.value), Logs(row.filter, tip, row.lastAccess))
  }

  function PollBlocks(row: Row, chain: Option<Chain>): (Answer, Row)
    requires row.Blocks?
  {
    if chain.None? || chain.value.height <= row.lastHeight then (Changes([]), row)
    else
      var tip := chain.value.height;
      (Changes(HashesOf(chain.value.hashAt, row.lastHeight + 1, tip)), Blocks(tip, row.lastAccess))
  }

  function PollPending(row: Row, pending: seq<string>): (Answer, Row)
    requires row.PendingTxs?
  {
    var unseen := Unseen(SortedSet(NonEmpty(pending)), row.seen);
    (Changes(unseen), PendingTxs(row.seen + SetOf(unseen), row.lastAccess))
  }

  /** One poll of a row: the answer and the row afterwards. */
  function PollRow(row: Row, chain: Option<Chain>, pending: seq<string>, query: Query): (Answer, Row) {
    if row.Logs? then PollLogs(row, chain, query)
    else if row.Blocks? then PollBlocks(row, chain)
    else PollPending(row, pending)
  }

  function Poll(s: Store, now: int, raw: RawId, chain: Option<Chain>, pending: seq<string>, query: Query)
    : (Store, Answer)
  {
    var id := ParseId(raw);
    if id.NoNumber? || id.value !in s.filters then (s, Changes([]))
    else
      var r := PollRow(Touched(s.filters[id.value], now), chain, pending, query);
      (s.(filters := s.filters[id.value := r.1]), r.0)
  }

  function Uninstall(s: Store, raw: RawId): (Store, bool) {
    var id := ParseId(raw);
    if id.NoNumber? || id.value !in s.filters then (s, false)
    else (s.(filters := s.filters - {id.value}), true)
  }

  // ---------------------------------------------------------------- the object

  class EthFilterStore {
    var nextId: int
    var filters: map<int, Row>

    constructor ()
      ensures Value() == Store(1, map[])
    {
      nextId, filters := 1, map[];
    }

    function Value(): Store
      reads this
    {
      Store(nextId, filters)
    }

    method PruneExpired(now: int)
      modifies this`filters
      ensures Value() == Prune(old(Value()), now)
    {
      var expired := set id | id in filters && now - filters[id].lastAccess > FILTER_TTL_SEC;
      filters := filters - expired;
    }

    method NewLogFilter(now: int, filter: Criteria, chain: Option<Chain>) returns (id: string)
      modifies this
      ensures (Value(), id) == Create(old(Value()), now, Logs(filter, TipOf(chain), now))
    {
      var tip := if chain.Some? then chain.value.height else 0;
      PruneExpired(now);
      var fid := nextId;
      nextId := nextId + 1;
      filters := filters[fid := Logs(filter, tip, now)];
      id := Hex(fid);
    }

    method NewBlockFilter(now: int, chain: Option<Chain>) returns (id: string)
      modifies this
      ensures (Value(), id) == Create(old(Value()), now, Blocks(TipOf(chain), now))
    {
      var tip := if chain.Some? then chain.value.height else 0;
      PruneExpired(now);
      var fid := nextId;
      nextId := nextId + 1;
      filters := filters[fid := Blocks(tip, now)];
      id := Hex(fid);
    }

    method NewPendingFilter(now: int, pending: seq<string>) returns (id: string)
      modifies this
      ensures (Value(), id) == Create(old(Value()), now, PendingTxs(SetOf(NonEmpty(pending)), now))
    {
      var seen := set h | h in NonEmpty(pending);
      PruneExpired(now);
      var fid := nextId;
      nextId := nextId + 1;
      filters := filters[fid := PendingTxs(seen, now)];
      id := Hex(fid);
    }

    method UninstallFilter(raw: RawId) returns (removed: bool)
      modifies this`filters
      ensures (Value(), removed) == Uninstall(old(Value()), raw)
    {
      var id := ParseId(raw);
      if id.NoNumber? {
        return false;
      }
      if id.value in filters {
        filters := filters - {id.value};
        return true;
      }
      return false;
    }

    method GetFilterChanges(now: int, raw: RawId, chain: Option<Chain>, pending: seq<string>, query: Query)
      returns (answer: Answer)
      modifies this`filters
      ensures (Value(), answer) == Poll(old(Value()), now, raw, chain, pending, query)
    {
      var parsed := ParseId(raw);
      if parsed.NoNumber? || parsed.value !in filters {
        return Changes([]);
      }
      var id := parsed.value;
      var row := Touched(filters[id], now);
      filters := filters[id := row];
      match row {
        case Logs(_, _, _) => answer := LogChanges(id, row, chain, query);
        case Blocks(_, _) => answer := BlockChanges(id, row, chain);
        case PendingTxs(_, _) => answer := PendingChanges(id, row, pending);
      }
      assert filters == old(filters)[id := PollRow(row, chain, pending, query).1];
    }

    method LogChanges(id: int, row: Row, chain: Option<Chain>, query: Query) returns (answer: Answer)
      requires id in filters && filters[id] == row && row.Logs?
      modifies this`filters
      ensures answer == PollLogs(row, chain, query).0
      ensures filters == old(filters)[id := PollLogs(row, chain, query).1]
    {
      var tip := TipOf(chain);
      var last := row.lastHeight;
      if tip <= last {
        return Changes([]);
      }
      var filter := row.filter;
      filter := filter["fromBlock" := Hex(last + 1)];
      filter := filter["toBlock" := Hex(tip)];
      var logs := query(filter);
      if logs.None? {
        return QueryRaised;
      }
      filters := filters[id := Logs(row.filter, tip, row.lastAccess)];
      return Changes(logs.value);
    }

    method BlockChanges(id: int, row: Row, chain: Option<Chain>) returns (answer: Answer)
      requires id in filters && filters[id] == row && row.Blocks?
      modifies this`filters
      ensures answer == PollBlocks(row, chain).0
      ensures filters == old(filters)[id := PollBlocks(row, chain).1]
    {
      if chain.None? {
        return Changes([]);
      }
      var tip, last := chain.value.height, row.lastHeight;
      if tip <= last {
        return Changes([]);
      }
      var out := [];
      var height := last + 1;
      while height <= tip
        invariant last + 1 <= height <= tip + 1
        invariant out == HashesOf(chain.value.hashAt, last + 1, height - 1)
      {
        var hash := chain.value.hashAt(height);
        if hash != "" {
          out := out + [WithHashPrefix(hash)];
        }
        height := height + 1;
      }
      filters := filters[id := Blocks(tip, row.lastAccess)];
      return Changes(out);
    }

    method PendingChanges(id: int, row: Row, pending: seq<string>) returns (answer: Answer)
      requires id in filters && filters[id] == row && row.PendingTxs?
      modifies this`filters
      ensures answer == PollPending(row, pending).0
      ensures filters == old(filters)[id := PollPending(row, pending).1]
    {
      var current := SortedSet(NonEmpty(pending));
      var unseen: seq<string> := [];
      for i := 0 to |current|
        invariant unseen == Unseen(current[..i], row.seen)
      {
        assert current[..i + 1][..i] == current[..i];
        if current[i] !in row.seen {
          unseen := unseen + [current[i]];
        }
      }
      assert current[..|current|] == current;
      filters := filters[id := PendingTxs(row.seen + (set h | h in unseen), row.lastAccess)];
      return Changes(unseen);
    }
  }
}
