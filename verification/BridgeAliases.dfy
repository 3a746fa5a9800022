/** How often a source event is paid. The replay key has the chain as the caller spells it
    and the log index the caller sends. The bridge takes several names for one chain
    (CHAIN_ALIASES), and so does its verifier (bridge/rust_bridge/src/main.rs, 31-38),
    which is never shown the log index: an event, that is a chain, a transaction and a log
    index, is paid once for each name of the chain that the verifier lets pass, and a
    transaction once for each log index besides. */
module BridgeAliases {
  import opened Wrappers
  import opened Text
  import opened Money
  import opened Bridge
  import opened BridgeRuns

  /** The chain as the replay key has it. */
  function Spelling(r: IncomingRequest): string {
    Lower(Strip(r.fromChain))
  }

  /** The same transaction and log index. */
  predicate SameTx(r: IncomingRequest, s: IncomingRequest) {
    Lower(Strip(EventTx(r))) == Lower(Strip(EventTx(s))) && r.logIndex == s.logIndex
  }

  /** The chain a name stands for: as the bridge has it and, with the Rust verifier, as
      that has it. */
  function ChainOf(c: Config, name: string): string {
    var chain := NormalizeChain(name);
    if c.mode == Rust && chain == "matic" then "polygon" else chain
  }

  /** The same chain, transaction and log index. */
  predicate SameEvent(c: Config, r: IncomingRequest, s: IncomingRequest) {
    ChainOf(c, r.fromChain) == ChainOf(c, s.fromChain) && SameTx(r, s)
  }

  function KeyOf(c: Config, r: IncomingRequest): string {
    CreditKey(c, r.fromChain, EventTx(r), r.logIndex)
  }

  predicate Pays(c: Config, d: Ledger, e: Event) {
    e.Arriving? && IncomingVerdict(c, d, e.incoming, e.verifier).Credited?
  }

  /** The arrivals a run pays, in order. */
  function Paid(c: Config, d: Ledger, events: seq<Event>): seq<IncomingRequest>
    decreases |events|
  {
    if events == [] then []
    else
      var front, e := events[..|events| - 1], events[|events| - 1];
      Paid(c, d, front) + if Pays(c, Run(c, d, front), e) then [e.incoming] else []
  }

  /** One arrival under the key was paid. */
  predicate PaidUnder(c: Config, paid: seq<IncomingRequest>, key: string) {
    exists i :: 0 <= i < |paid| && KeyOf(c, paid[i]) == key
  }

  // ---------------------------------------------------------------- once for each spelling

  lemma EventCredits(c: Config, d: Ledger, e: Event)
    ensures Apply(c, d, e).credits.Keys == d.credits.Keys + if Pays(c, d, e) then {KeyOf(c, e.incoming)} else {}
    ensures Pays(c, d, e) ==> KeyOf(c, e.incoming) !in d.credits
  {
    hide LockVerdict, CreditKey, EventTx, Verified, ConfirmsLock, Debited, Bump, Strip, NormalizeChain;
  }

  /** No two of the requests have one key, and none has a key of the table. */
  predicate NewKeys(c: Config, paid: seq<IncomingRequest>, credits: set<string>) {
    && (forall i, j :: 0 <= i < j < |paid| ==> KeyOf(c, paid[i]) != KeyOf(c, paid[j]))
    && (forall i :: 0 <= i < |paid| ==> KeyOf(c, paid[i]) !in credits)
  }

  /** The credits of a run are those of the start and, each once, those it paid. */
  lemma {:induction false} PaidOncePerKey(c: Config, d: Ledger, events: seq<Event>)
    ensures forall key :: key in Run(c, d, events).credits <==>
      key in d.credits || PaidUnder(c, Paid(c, d, events), key)
    ensures NewKeys(c, Paid(c, d, events), d.credits.Keys)
    decreases |events|
  {
    hide Apply, KeyOf, Pays, PaidUnder, NewKeys;
    if events == [] {
      NonePaid(c, d);
    } else {
      var front, e := events[..|events| - 1], events[|events| - 1];
      var t, before := Run(c, d, front), Paid(c, d, front);
      PaidOncePerKey(c, d, front);
      EventCredits(c, t, e);
      if Pays(c, t, e) {
        assert e.Arriving? by { PaysArrival(c, t, e); }
        assert Paid(c, d, events) == before + [e.incoming];
        PaidAppended(c, before, e.incoming, d.credits.Keys);
      } else {
        assert Paid(c, d, events) == before;
        SameKeys(Run(c, d, events).credits, t.credits);
      }
    }
  }

  lemma SameKeys(a: map<string, Credit>, b: map<string, Credit>)
    requires a.Keys == b.Keys
    ensures forall key :: key in a <==> key in b
  {
  }

  lemma PaysArrival(c: Config, d: Ledger, e: Event)
    requires Pays(c, d, e)
    ensures e.Arriving?
  {
  }

  lemma NonePaid(c: Config, d: Ledger)
    ensures (forall key :: !PaidUnder(c, [], key)) && NewKeys(c, [], d.credits.Keys)
  {
  }

  lemma PaidAppended(c: Config, paid: seq<IncomingRequest>, r: IncomingRequest, credits: set<string>)
    ensures forall key :: PaidUnder(c, paid + [r], key) <==> PaidUnder(c, paid, key) || key == KeyOf(c, r)
    ensures NewKeys(c, paid, credits) && KeyOf(c, r) !in credits && !PaidUnder(c, paid, KeyOf(c, r)) ==>
      NewKeys(c, paid + [r], credits)
  {
    hide CreditKey, EventTx;
    forall key ensures PaidUnder(c, paid + [r], key) <==> PaidUnder(c, paid, key) || key == KeyOf(c, r) {
      assert (paid + [r])[|paid|] == r;
      if PaidUnder(c, paid, key) {
        var i :| 0 <= i < |paid| && KeyOf(c, paid[i]) == key;
        assert (paid + [r])[i] == paid[i];
      }
    }
  }

  /** The key is made of the spelling, the transaction and the log index. */
  lemma SameKey(c: Config, r: IncomingRequest, s: IncomingRequest)
    requires Spelling(r) == Spelling(s) && SameTx(r, s)
    ensures KeyOf(c, r) == KeyOf(c, s)
  {
    LowerParts(Strip(r.fromChain), Strip(EventTx(r)), r.logIndex);
    LowerParts(Strip(s.fromChain), Strip(EventTx(s)), s.logIndex);
    hide Strip, Lower, Decimal, EventTx;
  }

  /** In any run from any tables, arrivals of one event that are paid all spell the chain
      differently: nothing is paid twice under one spelling. */
  lemma OncePerSpelling(c: Config, d: Ledger, events: seq<Event>, i: nat, j: nat)
    requires i < j < |Paid(c, d, events)| && SameTx(Paid(c, d, events)[i], Paid(c, d, events)[j])
    ensures Spelling(Paid(c, d, events)[i]) != Spelling(Paid(c, d, events)[j])
  {
    PaidOncePerKey(c, d, events);
    hide Paid, Run, KeyOf, Spelling, SameTx;
    var paid := Paid(c, d, events);
    if Spelling(paid[i]) == Spelling(paid[j]) {
      SameKey(c, paid[i], paid[j]);
    }
  }

  // ---------------------------------------------------------------- exactly when again

  /** A request that asks for something and that the verifier lets pass. */
  predicate Claims(c: Config, s: IncomingRequest, w: Verifier) {
    EventTx(s) != "" && s.recipient != "" && s.amount > 0.0 && Verified(c, s, w)
  }

  /** What the replay key is made of. */
  predicate SameName(r: IncomingRequest, s: IncomingRequest) {
    Label(r.fromChain, EventTx(r)) == Label(s.fromChain, EventTx(s)) && r.logIndex == s.logIndex
  }

  lemma KeysAgreeExactly(c: Config, r: IncomingRequest, s: IncomingRequest)
    requires forall x, y :: c.hash(x) == c.hash(y) ==> x == y
    ensures KeyOf(c, r) == KeyOf(c, s) <==> SameName(r, s)
  {
    hide Label, EventTx, CreditKey;
    KeyIsLabel(c, r.fromChain, EventTx(r), r.logIndex, s.fromChain, EventTx(s), s.logIndex);
  }

  /** For a request without colons: its spelling, its transaction and its log index. */
  lemma PlainName(r: IncomingRequest, s: IncomingRequest)
    requires NoColon(Strip(s.fromChain)) && NoColon(Strip(EventTx(s)))
    ensures SameName(r, s) <==> Spelling(r) == Spelling(s) && SameTx(r, s)
  {
    hide Label, EventTx, Strip, Lower;
    PlainLabel(r.fromChain, EventTx(r), s.fromChain, EventTx(s));
  }

  /** Of one transaction and log index: its spelling. */
  lemma NameIsSpelling(r: IncomingRequest, s: IncomingRequest)
    requires SameTx(r, s)
    ensures SameName(r, s) <==> Spelling(r) == Spelling(s)
  {
    hide EventTx, Strip, Lower;
    var a, b, x := Spelling(r), Spelling(s), Lower(Strip(EventTx(r)));
    if SameName(r, s) {
      assert a + ":" + x == b + ":" + x;
      assert |a| == |b| && (a + ":" + x)[..|a|] == a && (b + ":" + x)[..|b|] == b;
    }
  }

  /** After any run: a request that claims is paid if and only if nothing stood under its
      key at the start and the run has paid no arrival under its name. */
  lemma PaidNextExactly(c: Config, d: Ledger, events: seq<Event>, s: IncomingRequest, w: Verifier)
    requires forall x, y :: c.hash(x) == c.hash(y) ==> x == y
    requires Claims(c, s, w)
    ensures IncomingVerdict(c, Run(c, d, events), s, w).Credited?
      <==> KeyOf(c, s) !in d.credits
           && forall i :: 0 <= i < |Paid(c, d, events)| ==> !SameName(Paid(c, d, events)[i], s)
  {
    var paid := Paid(c, d, events);
    hide Paid, Run, SameName, EventTx, CreditKey, Verified;
    PaidOncePerKey(c, d, events);
    forall i | 0 <= i < |paid| ensures KeyOf(c, paid[i]) == KeyOf(c, s) <==> SameName(paid[i], s) {
      KeysAgreeExactly(c, paid[i], s);
    }
  }

  /** No arrival of the run has the name. */
  predicate NotNamed(events: seq<Event>, s: IncomingRequest) {
    forall k :: 0 <= k < |events| && events[k].Arriving? ==> !SameName(events[k].incoming, s)
  }

  /** What a run of other names leaves of a key. */
  lemma {:induction false} OthersKeepKey(c: Config, d: Ledger, events: seq<Event>, s: IncomingRequest)
    requires forall x, y :: c.hash(x) == c.hash(y) ==> x == y
    requires NotNamed(events, s)
    ensures KeyOf(c, s) in Run(c, d, events).credits <==> KeyOf(c, s) in d.credits
    decreases |events|
  {
    hide Apply, KeyOf, IncomingVerdict, SameName;
    if events != [] {
      var front, e := events[..|events| - 1], events[|events| - 1];
      OthersKeepKey(c, d, front, s);
      EventCredits(c, Run(c, d, front), e);
      if e.Arriving? {
        KeysAgreeExactly(c, e.incoming, s);
      }
    }
  }

  /** Two arrivals of one transaction and log index, any traffic under other names in
      between, the second not paid before the first: the first being paid, the second is
      paid again if and only if it spells the chain differently. */
  lemma PaidAgainExactly(c: Config, d: Ledger, r: IncomingRequest, v: Verifier, events: seq<Event>,
                         s: IncomingRequest, w: Verifier)
    requires forall x, y :: c.hash(x) == c.hash(y) ==> x == y
    requires IncomingVerdict(c, d, r, v).Credited? && SameTx(r, s)
    requires Claims(c, s, w) && KeyOf(c, s) !in d.credits && NotNamed(events, s)
    ensures IncomingVerdict(c, Run(c, AfterIncoming(c, d, r, v), events), s, w).Credited?
      <==> Spelling(r) != Spelling(s)
  {
    hide Run, Spelling, SameTx, SameName, EventTx, CreditKey, Verified;
    OthersKeepKey(c, AfterIncoming(c, d, r, v), events, s);
    EventCredits(c, d, Arriving(r, v));
    KeysAgreeExactly(c, r, s);
    NameIsSpelling(r, s);
  }

  /** Two claims under two names, from empty tables: both are paid. */
  lemma TwoNamesTwoPayments(c: Config, p: IncomingRequest, v: Verifier, q: IncomingRequest, w: Verifier)
    requires forall x, y :: c.hash(x) == c.hash(y) ==> x == y
    requires Claims(c, p, v) && Claims(c, q, w) && !SameName(p, q)
    ensures Paid(c, Ledger(map[], map[], map[]), [Arriving(p, v), Arriving(q, w)]) == [p, q]
  {
    hide SameName, EventTx, CreditKey, Verified, AfterIncoming;
    var d := Ledger(map[], map[], map[]);
    var run := [Arriving(p, v), Arriving(q, w)];
    assert run[..1] == [Arriving(p, v)] && run[..1][..0] == [];
    assert Run(c, d, []) == d && Paid(c, d, []) == [];
    assert Paid(c, d, run[..1]) == [p];
    PaidNextExactly(c, d, run[..1], q, w);
  }

  // ---------------------------------------------------------------- which events pay once

  /** What the verifier is shown: everything but the log index. */
  function Shown(r: IncomingRequest): IncomingRequest {
    r.(logIndex := 0)
  }

  function Verdict(passes: IncomingRequest -> bool, r: IncomingRequest): Verifier {
    Verifier(passes(Shown(r)), "")
  }

  /** The request would be paid if its key were free. */
  predicate Passes(c: Config, passes: IncomingRequest -> bool, r: IncomingRequest) {
    Claims(c, r, Verdict(passes, r))
  }

  /** The verdicts of the run are the verifier's. */
  predicate VerdictsOf(passes: IncomingRequest -> bool, events: seq<Event>) {
    forall k :: 0 <= k < |events| && events[k].Arriving? ==>
      events[k].verifier.ok == passes(Shown(events[k].incoming))
  }

  /** No run with this verifier, from any tables, pays the event twice. */
  ghost predicate PaidAtMostOnce(c: Config, passes: IncomingRequest -> bool, r: IncomingRequest) {
    forall d, events, i, j :: VerdictsOf(passes, events) && 0 <= i < j < |Paid(c, d, events)| ==>
      !(SameEvent(c, Paid(c, d, events)[i], r) && SameEvent(c, Paid(c, d, events)[j], r))
  }

  /** The requests for the event that pass all spell its chain alike. */
  ghost predicate OneSpelling(c: Config, passes: IncomingRequest -> bool, r: IncomingRequest) {
    forall p, q :: SameEvent(c, p, r) && SameEvent(c, q, r) && Passes(c, passes, p) && Passes(c, passes, q) ==>
      Spelling(p) == Spelling(q)
  }

  /** What a run pays, the verifier lets pass. */
  lemma {:induction false} PaidPass(c: Config, passes: IncomingRequest -> bool, d: Ledger, events: seq<Event>, i: nat)
    requires VerdictsOf(passes, events) && i < |Paid(c, d, events)|
    ensures Passes(c, passes, Paid(c, d, events)[i])
    decreases |events|
  {
    hide EventTx, CreditKey, Run;
    var front := events[..|events| - 1];
    if i < |Paid(c, d, front)| {
      PaidPass(c, passes, d, front, i);
    }
  }

  /** With a hash that does not collide, for any verifier: an event is paid at most once in
      every run if and only if the requests for it that pass have one spelling. */
  lemma PaidAtMostOnceExactly(c: Config, passes: IncomingRequest -> bool, r: IncomingRequest)
    requires forall x, y :: c.hash(x) == c.hash(y) ==> x == y
    ensures PaidAtMostOnce(c, passes, r) <==> OneSpelling(c, passes, r)
  {
    if PaidAtMostOnce(c, passes, r) {
      OnceMeansOneSpelling(c, passes, r);
    }
    if OneSpelling(c, passes, r) {
      OneSpellingPaysOnce(c, passes, r);
    }
  }

  lemma OnceMeansOneSpelling(c: Config, passes: IncomingRequest -> bool, r: IncomingRequest)
    requires forall x, y :: c.hash(x) == c.hash(y) ==> x == y
    requires PaidAtMostOnce(c, passes, r)
    ensures OneSpelling(c, passes, r)
  {
    hide PaidAtMostOnce, SameEvent, Passes, Spelling;
    forall p, q | SameEvent(c, p, r) && SameEvent(c, q, r) && Passes(c, passes, p) && Passes(c, passes, q)
      ensures Spelling(p) == Spelling(q)
    {
      if Spelling(p) != Spelling(q) {
        TwoSpellingsPayTwice(c, passes, r, p, q);
      }
    }
  }

  lemma TwoSpellingsPayTwice(c: Config, passes: IncomingRequest -> bool, r: IncomingRequest,
                             p: IncomingRequest, q: IncomingRequest)
    requires forall x, y :: c.hash(x) == c.hash(y) ==> x == y
    requires SameEvent(c, p, r) && SameEvent(c, q, r) && Passes(c, passes, p) && Passes(c, passes, q)
    requires Spelling(p) != Spelling(q)
    ensures !PaidAtMostOnce(c, passes, r)
  {
    hide ChainOf, Paid, SameTx, Claims, Spelling, SameName;
    SameTxMeets(p, r, q);
    NameIsSpelling(p, q);
    var run := [Arriving(p, Verdict(passes, p)), Arriving(q, Verdict(passes, q))];
    var d := Ledger(map[], map[], map[]);
    TwoNamesTwoPayments(c, p, Verdict(passes, p), q, Verdict(passes, q));
    assert VerdictsOf(passes, run);
    assert Paid(c, d, run)[0] == p && Paid(c, d, run)[1] == q;
  }

  lemma SameTxMeets(p: IncomingRequest, r: IncomingRequest, q: IncomingRequest)
    requires SameTx(p, r) && SameTx(q, r)
    ensures SameTx(p, q)
  {
  }

  lemma OneSpellingPaysOnce(c: Config, passes: IncomingRequest -> bool, r: IncomingRequest)
    requires OneSpelling(c, passes, r)
    ensures PaidAtMostOnce(c, passes, r)
  {
    hide ChainOf, Paid, SameTx, Passes, VerdictsOf, Spelling;
    forall d, events, i, j | VerdictsOf(passes, events) && 0 <= i < j < |Paid(c, d, events)|
      ensures !(SameEvent(c, Paid(c, d, events)[i], r) && SameEvent(c, Paid(c, d, events)[j], r))
    {
      var p, q := Paid(c, d, events)[i], Paid(c, d, events)[j];
      if SameEvent(c, p, r) && SameEvent(c, q, r) {
        PaidPass(c, passes, d, events, i);
        PaidPass(c, passes, d, events, j);
        SameTxMeets(p, r, q);
        OncePerSpelling(c, d, events, i, j);
      }
    }
  }

  // ---------------------------------------------------------------- the names of chains

  lemma LowerLetters(name: string)
    requires forall i :: 0 <= i < |name| ==> 'a' <= name[i] <= 'z'
    ensures Lower(name) == name
  {
    assert forall i :: 0 <= i < |name| ==> LowerChar(name[i]) == name[i];
  }

  /** A name in letters only is its own spelling. */
  lemma LetterName(name: string)
    requires name != "" && forall i :: 0 <= i < |name| ==> 'a' <= Lower(name)[i] <= 'z'
    ensures Strip(name) == name
  {
    hide Strip;
    assert forall i :: 0 <= i < |name| ==> LowerChar(name[i]) == Lower(name)[i];
    StripNothing(name);
  }

  lemma PlainLetters(name: string)
    requires name != "" && forall i :: 0 <= i < |name| ==> 'a' <= name[i] <= 'z'
    ensures Strip(name) == name && Lower(Strip(name)) == name
  {
    hide Strip, Lower;
    LowerLetters(name);
    LetterName(name);
  }

  /** Chains with more than one name in CHAIN_ALIASES. */
  predicate HasAliases(chain: string) {
    chain == "ethereum" || chain == "bsc" || chain == "solana" || chain == "absolute"
  }

  /** Another name of a chain that has several. */
  function OtherName(chain: string): string
    requires HasAliases(chain)
  {
    if chain == "ethereum" then "eth" else if chain == "bsc" then "bnb" else if chain == "solana" then "sol" else "abs"
  }

  lemma NamesDiffer(chain: string)
    requires HasAliases(chain)
    ensures var other := OtherName(chain);
      && Lower(Strip(chain)) == chain == NormalizeChain(chain) && Lower(Strip(other)) == other
      && NormalizeChain(other) == chain && other != chain
  {
    hide Strip, Lower;
    PlainLetters(chain);
    PlainLetters(OtherName(chain));
  }

  lemma OneName(x: string, y: string)
    requires NormalizeChain(x) == NormalizeChain(y) && !HasAliases(NormalizeChain(x))
    ensures Lower(Strip(x)) == Lower(Strip(y))
  {
    hide Lower, Strip;
  }

  /** The event under another name of its chain, asked for by someone. */
  function Asking(r: IncomingRequest, name: string): IncomingRequest {
    r.(fromChain := name, recipient := "carol", amount := 1.0)
  }

  /** In the simulator, which lets everything pass: an event is paid at most once in every
      run if and only if its chain has a single name in CHAIN_ALIASES. */
  lemma SimulatorExactly(c: Config, passes: IncomingRequest -> bool, r: IncomingRequest)
    requires forall x, y :: c.hash(x) == c.hash(y) ==> x == y
    requires c.mode == Simulator && EventTx(r) != ""
    ensures PaidAtMostOnce(c, passes, r) <==> !HasAliases(NormalizeChain(r.fromChain))
  {
    hide NormalizeChain, PaidAtMostOnce, Lower, Strip, SameTx, HasAliases;
    PaidAtMostOnceExactly(c, passes, r);
    var chain := NormalizeChain(r.fromChain);
    if HasAliases(chain) {
      var p, q := Asking(r, OtherName(chain)), Asking(r, chain);
      NamesDiffer(chain);
      SameTxAsking(r, OtherName(chain));
      SameTxAsking(r, chain);
      assert SameEvent(c, p, r) && SameEvent(c, q, r) && Passes(c, passes, p) && Passes(c, passes, q);
      assert Spelling(p) != Spelling(q);
    } else {
      forall p, q | SameEvent(c, p, r) && SameEvent(c, q, r) ensures Spelling(p) == Spelling(q) {
        OneName(p.fromChain, q.fromChain);
      }
    }
  }

  lemma SameTxAsking(r: IncomingRequest, name: string)
    ensures SameTx(Asking(r, name), r)
  {
  }

  datatype Place = EthRpc | BscRpc | PolygonRpc | Nowhere

  /** rpc_env_key: where the verifier looks a transaction up, for a name in lower case. */
  function PlaceOf(name: string): Place {
    if name == "ethereum" || name == "eth" then EthRpc
    else if name == "bsc" || name == "binance" || name == "bnb" then BscRpc
    else if name == "polygon" || name == "matic" then PolygonRpc
    else Nowhere
  }

  /** A verifier that asks for the transaction and looks it up where the name leads. What
      it finds there depends on the place and not on the name. */
  function Resolving(found: (Place, string, string, real) -> bool): IncomingRequest -> bool {
    (s: IncomingRequest) =>
      && s.l1TxHash != "" && PlaceOf(Lower(s.fromChain)) != Nowhere
      && found(PlaceOf(Lower(s.fromChain)), s.l1TxHash, s.recipient, s.amount)
  }

  /** Another name for the same place. */
  function OtherResolved(name: string): string
    requires PlaceOf(name) != Nowhere
  {
    match PlaceOf(name)
    case EthRpc => if name == "eth" then "ethereum" else "eth"
    case BscRpc => if name == "bsc" then "bnb" else "bsc"
    case _ => if name == "matic" then "polygon" else "matic"
  }

  /** The bridge's chain for a name in lower case and without outer space. */
  function ChainAt(place: Place): string {
    match place case EthRpc => "ethereum" case BscRpc => "bsc" case _ => "polygon"
  }

  lemma PlaceNames(c: Config, name: string)
    requires c.mode == Rust && PlaceOf(Lower(name)) != Nowhere
    ensures Lower(Strip(name)) == Lower(name) && ChainOf(c, name) == ChainAt(PlaceOf(Lower(name)))
  {
    hide Strip, Lower;
    LetterName(name);
  }

  lemma OtherPlaceName(name: string)
    requires PlaceOf(name) != Nowhere
    ensures var other := OtherResolved(name);
      Lower(other) == other && other != name && PlaceOf(other) == PlaceOf(name)
  {
    hide Lower;
    LowerLetters(OtherResolved(name));
  }

  lemma ResolvedNames(c: Config, name: string)
    requires c.mode == Rust && PlaceOf(Lower(name)) != Nowhere
    ensures var other := OtherResolved(Lower(name));
      && Lower(Strip(name)) == Lower(name) && Lower(Strip(other)) == other == Lower(other)
      && other != Lower(name) && PlaceOf(other) == PlaceOf(Lower(name)) && ChainOf(c, other) == ChainOf(c, name)
  {
    hide Strip, Lower, ChainOf, PlaceOf, OtherResolved, ChainAt;
    OtherPlaceName(Lower(name));
    PlaceNames(c, name);
    PlaceNames(c, OtherResolved(Lower(name)));
  }

  /** With the Rust verifier: every name it resolves has another that resolves alike, so an
      event is paid at most once in every run if and only if it is never paid at all. */
  lemma RustExactly(c: Config, found: (Place, string, string, real) -> bool, r: IncomingRequest)
    requires forall x, y :: c.hash(x) == c.hash(y) ==> x == y
    requires c.mode == Rust
    ensures PaidAtMostOnce(c, Resolving(found), r)
      <==> forall p :: SameEvent(c, p, r) ==> !Passes(c, Resolving(found), p)
  {
    hide PaidAtMostOnce, SameEvent, Passes, Spelling, Resolving;
    PaidAtMostOnceExactly(c, Resolving(found), r);
    forall p | OneSpelling(c, Resolving(found), r) && SameEvent(c, p, r) ensures !Passes(c, Resolving(found), p) {
      if Passes(c, Resolving(found), p) {
        RenamedPasses(c, found, r, p);
      }
    }
  }

  lemma RenamedPasses(c: Config, found: (Place, string, string, real) -> bool, r: IncomingRequest, p: IncomingRequest)
    requires c.mode == Rust && SameEvent(c, p, r) && Passes(c, Resolving(found), p)
    ensures !OneSpelling(c, Resolving(found), r)
  {
    hide ChainOf, SameTx, Strip, Lower, PlaceOf, OtherResolved;
    var q := p.(fromChain := OtherResolved(Lower(p.fromChain)));
    ResolvedNames(c, p.fromChain);
    SameTxRenamed(p, q.fromChain, r);
    assert SameEvent(c, q, r) && Passes(c, Resolving(found), q);
    assert Spelling(p) != Spelling(q);
  }

  lemma SameTxRenamed(p: IncomingRequest, name: string, r: IncomingRequest)
    ensures SameTx(p.(fromChain := name), r) <==> SameTx(p, r)
  {
  }

  // ---------------------------------------------------------------- such inputs

  /** The log index is the caller's: whatever passes is paid under every index, in any mode
      and with any verifier. */
  lemma IndexPaysAgain(c: Config, passes: IncomingRequest -> bool, r: IncomingRequest, n: int)
    requires forall x, y :: c.hash(x) == c.hash(y) ==> x == y
    requires Passes(c, passes, r) && n != r.logIndex
    ensures var s := r.(logIndex := n);
      var run := [Arriving(r, Verdict(passes, r)), Arriving(s, Verdict(passes, s))];
      VerdictsOf(passes, run) && Paid(c, Ledger(map[], map[], map[]), run) == [r, s]
  {
    hide Paid, Label, EventTx;
    var s := r.(logIndex := n);
    assert Passes(c, passes, s) by { SameEventTx(r, n); }
    TwoNamesTwoPayments(c, r, Verdict(passes, r), s, Verdict(passes, s));
  }

  lemma SameEventTx(r: IncomingRequest, n: int)
    ensures EventTx(r.(logIndex := n)) == EventTx(r)
  {
  }

  lemma OnePayment(c: Config, d: Ledger, r: IncomingRequest, v: Verifier)
    requires IncomingVerdict(c, d, r, v).Credited?
    ensures BalanceOf(AfterIncoming(c, d, r, v).accounts, r.recipient)
         == BalanceOf(d.accounts, r.recipient) + ToSatoshi(r.amount)
  {
    ToSatoshiMirrors(r.amount);
    hide CreditKey, Strip, ToSatoshi, EventTx, Verified;
  }

  /** Two payments to one recipient come to the sum of the amounts. */
  lemma TwoPayments(c: Config, d: Ledger, r: IncomingRequest, s: IncomingRequest, v: Verifier)
    requires Paid(c, d, [Arriving(r, v), Arriving(s, v)]) == [r, s] && r.recipient == s.recipient
    ensures BalanceOf(Run(c, d, [Arriving(r, v), Arriving(s, v)]).accounts, r.recipient)
         == BalanceOf(d.accounts, r.recipient) + ToSatoshi(r.amount) + ToSatoshi(s.amount)
  {
    hide IncomingVerdict, AfterIncoming, ToSatoshi;
    var run := [Arriving(r, v), Arriving(s, v)];
    assert run[..1] == [Arriving(r, v)] && run[..1][..0] == [];
    assert Run(c, d, []) == d && Paid(c, d, []) == [];
    assert Run(c, d, run[..1]) == AfterIncoming(c, d, r, v);
    assert |Paid(c, d, run[..1])| <= 1 && |Paid(c, d, run)| <= |Paid(c, d, run[..1])| + 1;
    OnePayment(c, d, r, v);
    OnePayment(c, AfterIncoming(c, d, r, v), s, v);
  }

  /** A coin that was locked in transaction 0xabcdef0123 on the chain of that name. */
  function Coin(chain: string, logIndex: int): IncomingRequest {
    IncomingRequest("", "carol", 1.0, chain, "0xabcdef0123", logIndex)
  }

  /** Both requests are paid: two coins for the one that was locked. */
  predicate PaysTwice(c: Config, first: IncomingRequest, second: IncomingRequest) {
    var d, v := Ledger(map[], map[], map[]), Verifier(true, "");
    var run := [Arriving(first, v), Arriving(second, v)];
    Paid(c, d, run) == [first, second] && BalanceOf(Run(c, d, run).accounts, "carol") == 2 * ToSatoshi(1.0)
  }

  lemma CoinsPay(c: Config, first: IncomingRequest, second: IncomingRequest)
    requires forall x, y :: c.hash(x) == c.hash(y) ==> x == y
    requires c.mode != Unavailable && !SameName(first, second)
    requires first == Coin(first.fromChain, first.logIndex) && second == Coin(second.fromChain, second.logIndex)
    ensures PaysTwice(c, first, second)
  {
    hide Label, Strip, Paid, Run, ToSatoshi;
    StripNothing("0xabcdef0123");
    TwoNamesTwoPayments(c, first, Verifier(true, ""), second, Verifier(true, ""));
    TwoPayments(c, Ledger(map[], map[], map[]), first, second, Verifier(true, ""));
  }

  lemma CoinsDiffer(x: string, y: string)
    requires Lower(Strip(x)) != Lower(Strip(y))
    ensures !SameName(Coin(x, 0), Coin(y, 0)) && SameTx(Coin(x, 0), Coin(y, 0))
  {
    NameIsSpelling(Coin(x, 0), Coin(y, 0));
    hide Strip, Lower, Label;
  }

  /** One transaction on Ethereum, sent as "eth" and then as "ethereum". */
  lemma EthThenEthereum(c: Config)
    requires forall x, y :: c.hash(x) == c.hash(y) ==> x == y
    requires c.mode != Unavailable
    ensures SameEvent(c, Coin("eth", 0), Coin("ethereum", 0)) && PaysTwice(c, Coin("eth", 0), Coin("ethereum", 0))
  {
    hide NormalizeChain, Lower, Strip, PaysTwice, SameName, SameTx, Coin;
    NamesDiffer("ethereum");
    CoinsDiffer("eth", "ethereum");
    CoinChain("eth");
    CoinChain("ethereum");
    CoinsPay(c, Coin("eth", 0), Coin("ethereum", 0));
  }

  /** One transaction on Polygon, sent as "polygon" and then as "matic", which only the Rust
      verifier takes for one chain. */
  lemma PolygonThenMatic(c: Config)
    requires forall x, y :: c.hash(x) == c.hash(y) ==> x == y
    requires c.mode == Rust
    ensures SameEvent(c, Coin("polygon", 0), Coin("matic", 0)) && PaysTwice(c, Coin("polygon", 0), Coin("matic", 0))
    ensures PlaceOf("polygon") == PlaceOf("matic") == PolygonRpc
  {
    hide Lower, Strip, PaysTwice, SameName, SameTx, Coin;
    PlainLetters("polygon");
    PlainLetters("matic");
    CoinsDiffer("polygon", "matic");
    CoinChain("polygon");
    CoinChain("matic");
    CoinsPay(c, Coin("polygon", 0), Coin("matic", 0));
  }

  lemma CoinChain(chain: string)
    ensures Coin(chain, 0).fromChain == chain && Coin(chain, 0).logIndex == 0
  {
  }

  /** One transaction on Polygon, sent with log index 0 and then with 1. */
  lemma PolygonTwoIndexes(c: Config)
    requires forall x, y :: c.hash(x) == c.hash(y) ==> x == y
    requires c.mode != Unavailable
    ensures Shown(Coin("polygon", 0)) == Shown(Coin("polygon", 1))
    ensures PaysTwice(c, Coin("polygon", 0), Coin("polygon", 1))
  {
    hide Label, PaysTwice;
    CoinsPay(c, Coin("polygon", 0), Coin("polygon", 1));
  }
}
