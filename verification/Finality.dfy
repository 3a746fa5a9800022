/** Checkpoint voting, justification by two thirds and finalization of consecutive
    justified epochs (finality_engine.py, the Python branches). The class updates
    its fields in place; the functions on Engine values say what each method does,
    and the theorems are about runs of those. */
module Finality {
  import opened Collections

  const EPOCH_LENGTH: int := 32

  datatype Checkpoint = Checkpoint(epoch: int, blockHash: string, blockNumber: int, votes: nat,
                                   isJustified: bool, isFinalized: bool)

  datatype Engine = Engine(
    checkpoints: map<int, Checkpoint>, votes: map<int, seq<string>>,
    justified: seq<int>, finalized: seq<int>, currentEpoch: int, validatorCount: nat)

  datatype Status = Pending | Justified | Finalized

  function EpochOf(blockNumber: int): int {
    blockNumber / EPOCH_LENGTH
  }

  function VotesOf(votes: map<int, seq<string>>, epoch: int): seq<string> {
    if epoch in votes then votes[epoch] else []
  }

  /** votes >= max(1, count) * 2 / 3 */
  predicate Quorum(votes: int, count: int) {
    3 * votes >= 2 * Max(1, count)
  }

  // ------------------------------------------------------------ the operations

  function Initial(count: nat): Engine {
    Engine(map[], map[], [], [], 0, count)
  }

  function CreateCheckpoint(g: Engine, blockNumber: int, blockHash: string): Engine {
    var e := EpochOf(blockNumber);
    if e in g.checkpoints then g
    else g.(checkpoints := g.checkpoints[e := Checkpoint(e, blockHash, blockNumber, 0, false, false)])
  }

  function Accepts(g: Engine, epoch: int, hash: string): bool {
    epoch in g.checkpoints && g.checkpoints[epoch].blockHash == hash
  }

  function RecordVote(g: Engine, validator: string, epoch: int): Engine
    requires epoch in g.checkpoints
  {
    if validator in VotesOf(g.votes, epoch) then g
    else
      var c := g.checkpoints[epoch];
      g.(votes := g.votes[epoch := VotesOf(g.votes, epoch) + [validator]],
         checkpoints := g.checkpoints[epoch := c.(votes := c.votes + 1)])
  }

  function Justify(g: Engine, epoch: int): Engine
    requires epoch in g.checkpoints
  {
    var c := g.checkpoints[epoch];
    if Quorum(c.votes, g.validatorCount) && !c.isJustified then
      g.(checkpoints := g.checkpoints[epoch := c.(isJustified := true)], justified := g.justified + [epoch])
    else g
  }

  function AddAttestation(g: Engine, validator: string, epoch: int, hash: string): Engine {
    if Accepts(g, epoch, hash) then Justify(RecordVote(g, validator, epoch), epoch) else g
  }

  function FinalizeCheckpoint(g: Engine, epoch: int): Engine {
    if epoch in g.justified && epoch - 1 in g.justified
       && epoch in g.checkpoints && !g.checkpoints[epoch].isFinalized then
      g.(checkpoints := g.checkpoints[epoch := g.checkpoints[epoch].(isFinalized := true)],
         finalized := g.finalized + [epoch])
    else g
  }

  /** for e in range(lo, hi): finalize_checkpoint(e) */
  function FinalizeRange(g: Engine, lo: int, hi: int): Engine
    decreases hi - lo
  {
    if lo >= hi then g else FinalizeCheckpoint(FinalizeRange(g, lo, hi - 1), hi - 1)
  }

  function ProcessBlock(g: Engine, blockNumber: int, blockHash: string, validator: string): Engine {
    var e := EpochOf(blockNumber);
    var g1 := CreateCheckpoint(g, blockNumber, blockHash);
    var g2 := AddAttestation(g1, validator, e, blockHash);
    FinalizeRange(g2, g.currentEpoch, e + 1).(currentEpoch := e)
  }

  function StatusOf(g: Engine, epoch: int): Status {
    if epoch in g.finalized then Finalized else if epoch in g.justified then Justified else Pending
  }

  // -------------------------------------------------------------- the object

  class FinalityEngine {
    var checkpoints: map<int, Checkpoint>
    var votes: map<int, seq<string>>
    var justifiedCheckpoints: seq<int>
    var finalizedCheckpoints: seq<int>
    var currentEpoch: int
    var activeValidatorCount: nat

    constructor ()
      ensures Value() == Initial(1)
    {
      checkpoints, votes, justifiedCheckpoints, finalizedCheckpoints := map[], map[], [], [];
      currentEpoch, activeValidatorCount := 0, 1;
    }

    function Value(): Engine
      reads this
    {
      Engine(checkpoints, votes, justifiedCheckpoints, finalizedCheckpoints, currentEpoch, activeValidatorCount)
    }

    method SetActiveValidatorCount(count: int)
      modifies this`activeValidatorCount
      ensures Value() == old(Value()).(validatorCount := Max(1, count))
    {
      activeValidatorCount := if count >= 1 then count else 1;
    }

    method Create(blockNumber: int, blockHash: string) returns (c: Checkpoint)
      modifies this`checkpoints
      ensures Value() == CreateCheckpoint(old(Value()), blockNumber, blockHash)
      ensures EpochOf(blockNumber) in checkpoints && c == checkpoints[EpochOf(blockNumber)]
    {
      var epoch := blockNumber / EPOCH_LENGTH;
      if epoch !in checkpoints {
        checkpoints := checkpoints[epoch := Checkpoint(epoch, blockHash, blockNumber, 0, false, false)];
      }
      c := checkpoints[epoch];
    }

    method Attest(validator: string, targetEpoch: int, targetHash: string) returns (accepted: bool)
      modifies this`checkpoints, this`votes, this`justifiedCheckpoints
      ensures Value() == AddAttestation(old(Value()), validator, targetEpoch, targetHash)
      ensures accepted == old(Accepts(Value(), targetEpoch, targetHash))
    {
      if targetEpoch !in checkpoints {
        return false;
      }
      if checkpoints[targetEpoch].blockHash != targetHash {
        return false;
      }
      var cast := VotesOf(votes, targetEpoch);
      if validator !in cast {
        votes := votes[targetEpoch := cast + [validator]];
        var c := checkpoints[targetEpoch];
        checkpoints := checkpoints[targetEpoch := c.(votes := c.votes + 1)];
      }
      var total := if activeValidatorCount >= 1 then activeValidatorCount else 1;
      var c := checkpoints[targetEpoch];
      if 3 * c.votes >= 2 * total {
        if !c.isJustified {
          checkpoints := checkpoints[targetEpoch := c.(isJustified := true)];
          justifiedCheckpoints := justifiedCheckpoints + [targetEpoch];
        }
      }
      return true;
    }

    method FinalizeEpoch(epoch: int) returns (done: bool)
      modifies this`checkpoints, this`finalizedCheckpoints
      ensures Value() == FinalizeCheckpoint(old(Value()), epoch)
      ensures done <==> Value() != old(Value())
    {
      if !(epoch in justifiedCheckpoints && epoch - 1 in justifiedCheckpoints) {
        return false;
      }
      if epoch !in checkpoints {
        return false;
      }
      var c := checkpoints[epoch];
      if !c.isFinalized {
        checkpoints := checkpoints[epoch := c.(isFinalized := true)];
        assert |finalizedCheckpoints + [epoch]| != |finalizedCheckpoints|;
        finalizedCheckpoints := finalizedCheckpoints + [epoch];
        return true;
      }
      return false;
    }

    method Process(blockNumber: int, blockHash: string, validator: string)
      modifies this
      ensures Value() == ProcessBlock(old(Value()), blockNumber, blockHash, validator)
    {
      var epoch := blockNumber / EPOCH_LENGTH;
      var _ := Create(blockNumber, blockHash);
      var _ := Attest(validator, epoch, blockHash);
      ghost var g := Value();
      var e := currentEpoch;
      while e < epoch + 1
        invariant e == currentEpoch || currentEpoch <= e <= epoch + 1
        invariant Value() == FinalizeRange(g, currentEpoch, e)
        invariant currentEpoch == g.currentEpoch
      {
        var _ := FinalizeEpoch(e);
        e := e + 1;
      }
      currentEpoch := epoch;
    }
  }

  // ---------------------------------------------------------------- invariants

  /** The lists agree with the flags and hold nothing twice, the counter is the
      number of distinct voters, and finalization rests on two justified epochs. */
  ghost predicate Consistent(g: Engine) {
    && (forall e :: e in g.checkpoints ==>
      && g.checkpoints[e].epoch == e
      && g.checkpoints[e].votes == |VotesOf(g.votes, e)|
      && NoDup(VotesOf(g.votes, e)))
    && (forall e :: e in g.votes ==> e in g.checkpoints)
    && (forall e :: e in g.justified <==> e in g.checkpoints && g.checkpoints[e].isJustified)
    && (forall e :: e in g.finalized <==> e in g.checkpoints && g.checkpoints[e].isFinalized)
    && NoDup(g.justified) && NoDup(g.finalized)
    && (forall e :: e in g.finalized ==> e in g.justified && e - 1 in g.justified)
  }

  /** A later engine: checkpoints stay with their hash, votes are only added, and
      flags are only raised. */
  ghost predicate Evolves(g: Engine, h: Engine) {
    forall e :: e in g.checkpoints ==>
      && e in h.checkpoints
      && h.checkpoints[e].blockHash == g.checkpoints[e].blockHash
      && h.checkpoints[e].blockNumber == g.checkpoints[e].blockNumber
      && (g.checkpoints[e].isJustified ==> h.checkpoints[e].isJustified)
      && (g.checkpoints[e].isFinalized ==> h.checkpoints[e].isFinalized)
      && VotesOf(g.votes, e) <= VotesOf(h.votes, e)
  }

  datatype Event =
    | Block(number: int, hash: string, proposer: string)
    | Attestation(validator: string, epoch: int, target: string)
    | NewCheckpoint(number: int, hash: string)
    | Finalization(epoch: int)
    | SetCount(count: int)

  function Apply(g: Engine, ev: Event): Engine {
    match ev
    case Block(n, h, v) => ProcessBlock(g, n, h, v)
    case Attestation(v, e, h) => AddAttestation(g, v, e, h)
    case NewCheckpoint(n, h) => CreateCheckpoint(g, n, h)
    case Finalization(e) => FinalizeCheckpoint(g, e)
    case SetCount(c) => g.(validatorCount := Max(1, c))
  }

  function Replay(g: Engine, run: seq<Event>): Engine {
    if run == [] then g else Apply(Replay(g, run[..|run| - 1]), run[|run| - 1])
  }

  lemma EvolvesTransitive(g: Engine, h: Engine, k: Engine)
    requires Evolves(g, h) && Evolves(h, k)
    ensures Evolves(g, k)
  {
  }

  lemma RecordVoteKeeps(g: Engine, v: string, e: int)
    requires Consistent(g) && e in g.checkpoints
    ensures Consistent(RecordVote(g, v, e)) && Evolves(g, RecordVote(g, v, e))
  {
  }

  lemma JustifyKeeps(g: Engine, e: int)
    requires Consistent(g) && e in g.checkpoints
    ensures Consistent(Justify(g, e)) && Evolves(g, Justify(g, e))
  {
  }

  lemma AttestKeeps(g: Engine, v: string, e: int, hash: string)
    requires Consistent(g)
    ensures Consistent(AddAttestation(g, v, e, hash)) && Evolves(g, AddAttestation(g, v, e, hash))
  {
    if Accepts(g, e, hash) {
      RecordVoteKeeps(g, v, e);
      JustifyKeeps(RecordVote(g, v, e), e);
      EvolvesTransitive(g, RecordVote(g, v, e), AddAttestation(g, v, e, hash));
    }
  }

  /** Finalizing touches no vote and no justification. */
  predicate SameVotes(g: Engine, h: Engine) {
    && h.justified == g.justified && h.votes == g.votes && h.currentEpoch == g.currentEpoch
    && h.validatorCount == g.validatorCount && h.checkpoints.Keys == g.checkpoints.Keys
    && forall e :: e in g.checkpoints ==>
         h.checkpoints[e].(isFinalized := g.checkpoints[e].isFinalized) == g.checkpoints[e]
  }

  lemma FinalizeKeeps(g: Engine, e: int)
    requires Consistent(g)
    ensures Consistent(FinalizeCheckpoint(g, e)) && Evolves(g, FinalizeCheckpoint(g, e))
    ensures SameVotes(g, FinalizeCheckpoint(g, e))
    ensures forall x :: x in FinalizeCheckpoint(g, e).finalized <==>
      x in g.finalized || (x == e && e in g.justified && e - 1 in g.justified)
  {
  }

  lemma SameVotesTransitive(g: Engine, h: Engine, k: Engine)
    requires SameVotes(g, h) && SameVotes(h, k)
    ensures SameVotes(g, k)
  {
  }

  /** Finalized from g to h: the epochs of lo..hi justified together with the one before. */
  ghost predicate RangeFinalized(g: Engine, h: Engine, lo: int, hi: int) {
    forall e :: e in h.finalized <==> DueIn(g, lo, hi, e)
  }

  predicate DueIn(g: Engine, lo: int, hi: int, e: int) {
    e in g.finalized || (lo <= e < hi && e in g.justified && e - 1 in g.justified)
  }

  /** What the loop over the window finalizes, exactly. */
  lemma {:induction false} FinalizeRangeExact(g: Engine, lo: int, hi: int)
    requires Consistent(g)
    ensures var h := FinalizeRange(g, lo, hi);
      && Consistent(h) && Evolves(g, h) && SameVotes(g, h) && RangeFinalized(g, h, lo, hi)
    decreases hi - lo
  {
    hide Consistent, Evolves, FinalizeCheckpoint;
    if lo < hi {
      FinalizeRangeExact(g, lo, hi - 1);
      var m, h := FinalizeRange(g, lo, hi - 1), FinalizeRange(g, lo, hi);
      FinalizeKeeps(m, hi - 1);
      EvolvesTransitive(g, m, h);
      SameVotesTransitive(g, m, h);
      assert m.justified == g.justified;
      hide SameVotes;
      forall e ensures e in h.finalized <==> DueIn(g, lo, hi, e) {
        assert e in m.finalized <==> DueIn(g, lo, hi - 1, e);
      }
    } else {
      NothingFinalized(g);
    }
  }

  lemma NothingFinalized(g: Engine)
    ensures Evolves(g, g) && SameVotes(g, g)
  {
  }

  lemma CreateKeeps(g: Engine, n: int, hash: string)
    requires Consistent(g)
    ensures Consistent(CreateCheckpoint(g, n, hash)) && Evolves(g, CreateCheckpoint(g, n, hash))
  {
  }

  lemma ProcessKeeps(g: Engine, n: int, hash: string, v: string)
    requires Consistent(g)
    ensures Consistent(ProcessBlock(g, n, hash, v)) && Evolves(g, ProcessBlock(g, n, hash, v))
  {
    hide Consistent, Evolves, CreateCheckpoint, AddAttestation, FinalizeRange, SameVotes, RangeFinalized;
    var e := EpochOf(n);
    var g1 := CreateCheckpoint(g, n, hash);
    CreateKeeps(g, n, hash);
    var g2 := AddAttestation(g1, v, e, hash);
    AttestKeeps(g1, v, e, hash);
    FinalizeRangeExact(g2, g.currentEpoch, e + 1);
    EvolvesTransitive(g, g1, g2);
    var g3 := FinalizeRange(g2, g.currentEpoch, e + 1);
    EvolvesTransitive(g, g2, g3);
    EpochIsNoFlag(g, g3, e);
  }

  lemma EpochIsNoFlag(g: Engine, h: Engine, e: int)
    requires Consistent(h) && Evolves(g, h)
    ensures Consistent(h.(currentEpoch := e)) && Evolves(g, h.(currentEpoch := e))
  {
  }

  /** Every operation, in every order, keeps the engine consistent and only evolves it. */
  lemma ApplyKeeps(g: Engine, ev: Event)
    requires Consistent(g)
    ensures Consistent(Apply(g, ev)) && Evolves(g, Apply(g, ev))
  {
    match ev
    case Block(n, h, v) => ProcessKeeps(g, n, h, v);
    case Attestation(v, e, h) => AttestKeeps(g, v, e, h);
    case NewCheckpoint(n, h) => CreateKeeps(g, n, h);
    case Finalization(e) => FinalizeKeeps(g, e);
    case SetCount(c) =>
  }

  /** Over any run from any consistent engine. */
  lemma {:induction false} ReplayKeeps(g: Engine, run: seq<Event>)
    requires Consistent(g)
    ensures Consistent(Replay(g, run)) && Evolves(g, Replay(g, run))
    decreases |run|
  {
    if run != [] {
      var before := Replay(g, run[..|run| - 1]);
      ReplayKeeps(g, run[..|run| - 1]);
      ApplyKeeps(before, run[|run| - 1]);
      EvolvesTransitive(g, before, Replay(g, run));
    }
  }

  /** The reported status of an epoch never goes back. */
  lemma StatusNeverGoesBack(g: Engine, run: seq<Event>, epoch: int)
    requires Consistent(g)
    ensures StatusOf(g, epoch).Finalized? ==> StatusOf(Replay(g, run), epoch).Finalized?
    ensures StatusOf(g, epoch).Justified? ==> !StatusOf(Replay(g, run), epoch).Pending?
  {
    ReplayKeeps(g, run);
  }

  // ------------------------------------------------------ accountable safety

  /** The run holds a vote of the validator for this hash at this epoch: an
      attestation, or the block it proposed. */
  ghost predicate Voted(run: seq<Event>, validator: string, epoch: int, hash: string) {
    exists i :: 0 <= i < |run| && VoteFor(run[i], validator, epoch, hash)
  }

  predicate VoteFor(ev: Event, validator: string, epoch: int, hash: string) {
    match ev
    case Attestation(v, e, h) => v == validator && e == epoch && h == hash
    case Block(n, h, v) => v == validator && EpochOf(n) == epoch && h == hash
    case _ => false
  }

  predicate VotersIn(ev: Event, validators: set<string>) {
    match ev
    case Attestation(v, _, _) => v in validators
    case Block(_, _, v) => v in validators
    case _ => true
  }

  /** A replica over a fixed validator set of n members: the count never changes and
      only members vote. */
  ghost predicate ReplicaRun(run: seq<Event>, validators: set<string>) {
    forall i :: 0 <= i < |run| ==> !run[i].SetCount? && VotersIn(run[i], validators)
  }

  /** What a replica knows about each epoch: a justified one has its quorum, and every
      recorded voter is a member that voted for the checkpoint's own hash. */
  ghost predicate Accountable(g: Engine, run: seq<Event>, validators: set<string>, count: nat) {
    && g.validatorCount == count
    && (forall e :: e in g.justified ==> e in g.checkpoints && Quorum(g.checkpoints[e].votes, count))
    && (forall e, v :: v in VotesOf(g.votes, e) ==> RightfulVoter(g, run, validators, e, v))
  }

  ghost predicate RightfulVoter(g: Engine, run: seq<Event>, validators: set<string>, e: int, v: string) {
    v in validators && e in g.checkpoints && Voted(run, v, e, g.checkpoints[e].blockHash)
  }

  lemma VotedExtends(run: seq<Event>, ev: Event, v: string, e: int, h: string)
    requires Voted(run, v, e, h) || VoteFor(ev, v, e, h)
    ensures Voted(run + [ev], v, e, h)
  {
    if Voted(run, v, e, h) {
      var i :| 0 <= i < |run| && VoteFor(run[i], v, e, h);
      assert VoteFor((run + [ev])[i], v, e, h);
    } else {
      assert VoteFor((run + [ev])[|run|], v, e, h);
    }
  }

  lemma AccountableExtends(g: Engine, run: seq<Event>, ev: Event, validators: set<string>, count: nat)
    requires Accountable(g, run, validators, count)
    ensures Accountable(g, run + [ev], validators, count)
  {
    forall e, v | v in VotesOf(g.votes, e)
      ensures RightfulVoter(g, run + [ev], validators, e, v)
    {
      assert RightfulVoter(g, run, validators, e, v);
      VotedExtends(run, ev, v, e, g.checkpoints[e].blockHash);
    }
  }

  lemma AttestAccountable(g: Engine, run: seq<Event>, validators: set<string>, count: nat,
                          v: string, e: int, h: string)
    requires Consistent(g) && Accountable(g, run, validators, count)
    requires v in validators && Voted(run, v, e, h)
    ensures Accountable(AddAttestation(g, v, e, h), run, validators, count)
  {
  }

  lemma SameVotesAccountable(g: Engine, h: Engine, run: seq<Event>, validators: set<string>, count: nat)
    requires Accountable(g, run, validators, count) && SameVotes(g, h)
    ensures Accountable(h, run, validators, count)
  {
    forall e, v | v in VotesOf(h.votes, e) ensures RightfulVoter(h, run, validators, e, v) {
      assert RightfulVoter(g, run, validators, e, v);
    }
  }

  lemma CreateAccountable(g: Engine, n: int, hash: string, run: seq<Event>, validators: set<string>, count: nat)
    requires Consistent(g) && Accountable(g, run, validators, count)
    ensures Accountable(CreateCheckpoint(g, n, hash), run, validators, count)
  {
    var h := CreateCheckpoint(g, n, hash);
    forall e, v | v in VotesOf(h.votes, e) ensures RightfulVoter(h, run, validators, e, v) {
      assert RightfulVoter(g, run, validators, e, v);
    }
  }

  lemma BlockAccountable(g: Engine, run: seq<Event>, validators: set<string>, count: nat,
                         n: int, h: string, v: string)
    requires Consistent(g) && Accountable(g, run, validators, count)
    requires v in validators && Voted(run, v, EpochOf(n), h)
    ensures Accountable(ProcessBlock(g, n, h, v), run, validators, count)
  {
    var e := EpochOf(n);
    var g1 := CreateCheckpoint(g, n, h);
    CreateKeeps(g, n, h);
    CreateAccountable(g, n, h, run, validators, count);
    var g2 := AddAttestation(g1, v, e, h);
    AttestKeeps(g1, v, e, h);
    AttestAccountable(g1, run, validators, count, v, e, h);
    FinalizeRangeExact(g2, g.currentEpoch, e + 1);
    var g3 := FinalizeRange(g2, g.currentEpoch, e + 1);
    SameVotesAccountable(g2, g3, run, validators, count);
    CurrentEpochIrrelevant(g3, e, run, validators, count);
  }

  lemma CurrentEpochIrrelevant(g: Engine, e: int, run: seq<Event>, validators: set<string>, count: nat)
    requires Accountable(g, run, validators, count)
    ensures Accountable(g.(currentEpoch := e), run, validators, count)
  {
    var h := g.(currentEpoch := e);
    forall x, v | v in VotesOf(h.votes, x) ensures RightfulVoter(h, run, validators, x, v) {
      assert RightfulVoter(g, run, validators, x, v);
    }
  }

  lemma StepAccountable(g: Engine, run: seq<Event>, ev: Event, validators: set<string>, count: nat)
    requires Consistent(g) && Accountable(g, run, validators, count)
    requires !ev.SetCount? && VotersIn(ev, validators)
    ensures Accountable(Apply(g, ev), run + [ev], validators, count)
  {
    hide Accountable, Consistent, ProcessBlock, AddAttestation, CreateCheckpoint, FinalizeCheckpoint;
    var run' := run + [ev];
    AccountableExtends(g, run, ev, validators, count);
    match ev
    case Attestation(v, e, h) =>
      VotedExtends(run, ev, v, e, h);
      AttestAccountable(g, run', validators, count, v, e, h);
    case Block(n, h, v) =>
      VotedExtends(run, ev, v, EpochOf(n), h);
      BlockAccountable(g, run', validators, count, n, h, v);
    case NewCheckpoint(n, h) =>
      CreateAccountable(g, n, h, run', validators, count);
    case Finalization(e) =>
      FinalizeKeeps(g, e);
      SameVotesAccountable(g, FinalizeCheckpoint(g, e), run', validators, count);
  }

  lemma {:induction false} RunAccountable(run: seq<Event>, validators: set<string>, count: nat)
    requires ReplicaRun(run, validators)
    ensures Accountable(Replay(Initial(count), run), run, validators, count)
    decreases |run|
  {
    if run != [] {
      var front, last := run[..|run| - 1], run[|run| - 1];
      RunAccountable(front, validators, count);
      ReplayKeeps(Initial(count), front);
      assert front + [last] == run;
      StepAccountable(Replay(Initial(count), front), front, last, validators, count);
    }
  }

  lemma {:induction false} DistinctCount(s: seq<string>)
    requires NoDup(s)
    ensures |SetOf(s)| == |s|
  {
    if s != [] {
      var front, last := s[..|s| - 1], s[|s| - 1];
      DistinctCount(front);
      assert SetOf(s) == SetOf(front) + {last};
      assert last !in front;
    }
  }

  lemma QuorumsMeet(a: set<string>, b: set<string>, validators: set<string>)
    requires a <= validators && b <= validators
    requires Quorum(|a|, |validators|) && Quorum(|b|, |validators|)
    ensures 3 * |a * b| >= |validators|
  {
    var u := a + b;
    assert |u| == |a| + |b| - |a * b|;
    SubsetSize(u, validators);
  }

  /** The hash of a checkpoint, if there is one. */
  function HashAt(g: Engine, epoch: int): string {
    if epoch in g.checkpoints then g.checkpoints[epoch].blockHash else ""
  }

  /** Accountable safety (Theorem 1 of the Casper FFG paper). Two replicas over the
      same n validators justify, or finalize, different hashes for one epoch only if
      at least n/3 validators are recorded as voters in both, and each of those
      really voted for both hashes. */
  lemma AccountableSafety(run1: seq<Event>, run2: seq<Event>, validators: set<string>, epoch: int)
    requires ReplicaRun(run1, validators) && ReplicaRun(run2, validators)
    ensures var g1, g2 := Replay(Initial(|validators|), run1), Replay(Initial(|validators|), run2);
      !StatusOf(g1, epoch).Pending? && !StatusOf(g2, epoch).Pending?
      && HashAt(g1, epoch) != HashAt(g2, epoch)
      ==>
      var both := SetOf(VotesOf(g1.votes, epoch)) * SetOf(VotesOf(g2.votes, epoch));
      && 3 * |both| >= |validators|
      && forall v :: v in both ==>
           Voted(run1, v, epoch, HashAt(g1, epoch)) && Voted(run2, v, epoch, HashAt(g2, epoch))
  {
    var n := |validators|;
    var g1, g2 := Replay(Initial(n), run1), Replay(Initial(n), run2);
    RunAccountable(run1, validators, n);
    RunAccountable(run2, validators, n);
    ReplayKeeps(Initial(n), run1);
    ReplayKeeps(Initial(n), run2);
    if !StatusOf(g1, epoch).Pending? && !StatusOf(g2, epoch).Pending? {
      DistinctCount(VotesOf(g1.votes, epoch));
      DistinctCount(VotesOf(g2.votes, epoch));
      QuorumsMeet(SetOf(VotesOf(g1.votes, epoch)), SetOf(VotesOf(g2.votes, epoch)), validators);
    }
  }

  // ------------------------------------------------------- exact finalization

  /** Blocks come in non-decreasing epochs, and a vote arriving on its own is for the
      current epoch. */
  predicate Timely(g: Engine, ev: Event) {
    match ev
    case Block(n, _, _) => EpochOf(n) >= g.currentEpoch
    case Attestation(_, e, _) => e == g.currentEpoch
    case _ => false
  }

  predicate TimelyRun(g: Engine, run: seq<Event>)
    decreases |run|
  {
    run == [] || (TimelyRun(g, run[..|run| - 1]) && Timely(Replay(g, run[..|run| - 1]), run[|run| - 1]))
  }

  /** Before the current epoch the finalized set is exact; nothing is justified after it. */
  ghost predicate ExactSoFar(g: Engine) {
    && (forall e :: e in g.justified ==> e <= g.currentEpoch)
    && (forall e :: e < g.currentEpoch ==> (e in g.finalized <==> e in g.justified && e - 1 in g.justified))
  }

  /** The finalized set is {e : e and e-1 justified}. */
  ghost predicate Exact(g: Engine) {
    forall e :: e in g.finalized <==> e in g.justified && e - 1 in g.justified
  }

  lemma AttestJustifiesOnly(g: Engine, v: string, e: int, h: string)
    ensures var g' := AddAttestation(g, v, e, h);
      && g'.finalized == g.finalized && g'.currentEpoch == g.currentEpoch
      && forall x :: x != e ==> (x in g'.justified <==> x in g.justified)
  {
  }

  /** Newly finalized: the epochs of the window justified together with the one before. */
  ghost predicate WindowFinalized(g: Engine, g': Engine, last: int) {
    forall e :: e in g'.finalized <==> WindowDue(g, g', last, e)
  }

  predicate WindowDue(g: Engine, g': Engine, last: int, e: int) {
    e in g.finalized || (g.currentEpoch <= e <= last && e in g'.justified && e - 1 in g'.justified)
  }

  /** The effect of a block on the two lists, exactly. */
  lemma ProcessFinalizes(g: Engine, n: int, h: string, v: string)
    requires Consistent(g)
    ensures var g' := ProcessBlock(g, n, h, v);
      && g'.currentEpoch == EpochOf(n)
      && (forall e :: e != EpochOf(n) ==> (e in g'.justified <==> e in g.justified))
      && WindowFinalized(g, g', EpochOf(n))
  {
    hide Consistent, Evolves, CreateCheckpoint, AddAttestation, FinalizeRange, RangeFinalized;
    var e := EpochOf(n);
    var g1 := CreateCheckpoint(g, n, h);
    CreateKeeps(g, n, h);
    CreateFrame(g, n, h);
    var g2 := AddAttestation(g1, v, e, h);
    AttestKeeps(g1, v, e, h);
    AttestJustifiesOnly(g1, v, e, h);
    FinalizeRangeExact(g2, g.currentEpoch, e + 1);
    var g3 := FinalizeRange(g2, g.currentEpoch, e + 1);
    var g' := ProcessBlock(g, n, h, v);
    assert g' == g3.(currentEpoch := e);
    assert g'.justified == g2.justified;
    assert g2.finalized == g.finalized;
    hide ProcessBlock, SameVotes;
    assert WindowFinalized(g, g', e) by {
      forall x ensures x in g'.finalized <==> WindowDue(g, g', e, x) {
        FinalizeRangePoint(g2, g3, g.currentEpoch, e + 1, x);
      }
    }
  }

  lemma FinalizeRangePoint(g: Engine, h: Engine, lo: int, hi: int, x: int)
    requires RangeFinalized(g, h, lo, hi)
    ensures x in h.finalized <==> x in g.finalized || (lo <= x < hi && x in g.justified && x - 1 in g.justified)
  {
  }

  lemma CreateFrame(g: Engine, n: int, h: string)
    ensures var g' := CreateCheckpoint(g, n, h);
      g'.finalized == g.finalized && g'.justified == g.justified && g'.currentEpoch == g.currentEpoch
  {
  }

  /** The window theorem, for any block in any run: inside the window just processed
      the finalized set is exact, outside it does not change. */
  lemma WindowExact(g: Engine, n: int, h: string, v: string, e: int)
    requires Consistent(g)
    ensures var g' := ProcessBlock(g, n, h, v);
      && (g.currentEpoch <= e <= EpochOf(n) ==>
            (e in g'.finalized <==> e in g'.justified && e - 1 in g'.justified))
      && (!(g.currentEpoch <= e <= EpochOf(n)) ==> (e in g'.finalized <==> e in g.finalized))
  {
    ProcessFinalizes(g, n, h, v);
    ProcessKeeps(g, n, h, v);
    hide ProcessBlock, Evolves;
  }

  lemma BlockExact(g: Engine, n: int, h: string, v: string)
    requires Consistent(g) && ExactSoFar(g) && EpochOf(n) >= g.currentEpoch
    ensures Exact(ProcessBlock(g, n, h, v)) && ExactSoFar(ProcessBlock(g, n, h, v))
  {
    ProcessFinalizes(g, n, h, v);
    ProcessKeeps(g, n, h, v);
    hide ProcessBlock, Evolves;
  }

  /** Finalized after a block is {e : e and e-1 justified} exactly when it already was
      outside the window of the block, with the justifications that hold once the
      proposer's vote is in. */
  lemma BlockExactExactly(g: Engine, n: int, h: string, v: string)
    requires Consistent(g)
    ensures Exact(ProcessBlock(g, n, h, v)) <==> ExactOutside(g, AfterVote(g, n, h, v), EpochOf(n))
  {
    ProcessFinalizes(g, n, h, v);
    ProcessKeeps(g, n, h, v);
    VoteJustifies(g, n, h, v);
    hide ProcessBlock, Evolves, AfterVote;
    var g', voted := ProcessBlock(g, n, h, v), AfterVote(g, n, h, v);
    if Exact(g') {
      forall e | !(g.currentEpoch <= e <= EpochOf(n)) ensures e in g.finalized <==> Pair(voted, e) {
        assert e in g'.finalized <==> WindowDue(g, g', EpochOf(n), e);
      }
    }
    if ExactOutside(g, voted, EpochOf(n)) {
      forall e ensures e in g'.finalized <==> e in g'.justified && e - 1 in g'.justified {
        assert e in g'.finalized <==> WindowDue(g, g', EpochOf(n), e);
        assert e in g'.finalized ==> e in g'.justified && e - 1 in g'.justified;
      }
    }
  }

  predicate Pair(g: Engine, e: int) {
    e in g.justified && e - 1 in g.justified
  }

  /** The engine of a block before the loop over the window. */
  function AfterVote(g: Engine, n: int, h: string, v: string): Engine {
    AddAttestation(CreateCheckpoint(g, n, h), v, EpochOf(n), h)
  }

  ghost predicate ExactOutside(g: Engine, voted: Engine, last: int) {
    forall e :: !(g.currentEpoch <= e <= last) ==> (e in g.finalized <==> Pair(voted, e))
  }

  lemma VoteJustifies(g: Engine, n: int, h: string, v: string)
    requires Consistent(g)
    ensures ProcessBlock(g, n, h, v).justified == AfterVote(g, n, h, v).justified
  {
    var g1 := CreateCheckpoint(g, n, h);
    CreateKeeps(g, n, h);
    AttestKeeps(g1, v, EpochOf(n), h);
    FinalizeRangeExact(AfterVote(g, n, h, v), g.currentEpoch, EpochOf(n) + 1);
    hide Consistent, Evolves, CreateCheckpoint, AddAttestation, FinalizeRange, RangeFinalized;
  }

  // ------------------------------------------- what is finalized, over any run

  /** Event k of the run tries epoch e, and afterwards e and e-1 are justified. */
  predicate Caught(g: Engine, run: seq<Event>, k: int, e: int)
    requires 0 <= k < |run|
  {
    && Pair(Replay(g, run[..k + 1]), e)
    && (run[k] == Finalization(e)
        || (run[k].Block? && Replay(g, run[..k]).currentEpoch <= e <= EpochOf(run[k].number)))
  }

  ghost predicate EverCaught(g: Engine, run: seq<Event>, e: int) {
    exists k :: 0 <= k < |run| && Caught(g, run, k, e)
  }

  lemma CaughtExtends(g: Engine, run: seq<Event>, ev: Event, e: int)
    ensures EverCaught(g, run + [ev], e) <==> EverCaught(g, run, e) || Caught(g, run + [ev], |run|, e)
  {
    var all := run + [ev];
    forall k | 0 <= k < |run| ensures Caught(g, all, k, e) <==> Caught(g, run, k, e) {
      assert all[..k] == run[..k] && all[..k + 1] == run[..k + 1];
    }
    if EverCaught(g, run, e) {
      var k :| 0 <= k < |run| && Caught(g, run, k, e);
      assert Caught(g, all, k, e);
    }
  }

  /** What one event adds to the finalized epochs, exactly. */
  lemma EventFinalizes(g: Engine, ev: Event, e: int)
    requires Consistent(g)
    ensures var g' := Apply(g, ev);
      e in g'.finalized <==>
        e in g.finalized
        || (Pair(g', e) && (ev == Finalization(e) || (ev.Block? && g.currentEpoch <= e <= EpochOf(ev.number))))
  {
    match ev
    case Block(n, h, v) =>
      ProcessFinalizes(g, n, h, v);
      hide ProcessBlock;
      assert e in ProcessBlock(g, n, h, v).finalized <==> WindowDue(g, ProcessBlock(g, n, h, v), EpochOf(n), e);
    case Attestation(v, x, h) => AttestJustifiesOnly(g, v, x, h);
    case NewCheckpoint(n, h) => CreateFrame(g, n, h);
    case Finalization(x) => FinalizeKeeps(g, x);
    case SetCount(_) =>
  }

  /** Over any run: an epoch is finalized exactly when, with it and the one before
      justified, a block's window or a call came to it. */
  lemma {:induction false} FinalizedExactly(g: Engine, run: seq<Event>, e: int)
    requires Consistent(g)
    ensures e in Replay(g, run).finalized <==> e in g.finalized || EverCaught(g, run, e)
    decreases |run|
  {
    if run != [] {
      var front, last := run[..|run| - 1], run[|run| - 1];
      FinalizedExactly(g, front, e);
      ReplayKeeps(g, front);
      EventFinalizes(Replay(g, front), last, e);
      CaughtExtends(g, front, last, e);
      assert run == front + [last] && run[..|run|] == run;
      hide Apply, Consistent, Evolves;
    }
  }

  // ------------------------------------------------------------ rising runs

  /** Blocks come in non-decreasing epochs and nobody finalizes by hand; attestations,
      checkpoints and validator counts are as they like. */
  predicate RisingEvent(g: Engine, ev: Event) {
    match ev
    case Block(n, _, _) => EpochOf(n) >= g.currentEpoch
    case Finalization(_) => false
    case _ => true
  }

  predicate Rising(g: Engine, run: seq<Event>)
    decreases |run|
  {
    run == [] || (Rising(g, run[..|run| - 1]) && RisingEvent(Replay(g, run[..|run| - 1]), run[|run| - 1]))
  }

  lemma EventEpoch(g: Engine, ev: Event)
    ensures Apply(g, ev).currentEpoch == if ev.Block? then EpochOf(ev.number) else g.currentEpoch
  {
    match ev
    case Block(_, _, _) =>
    case Attestation(v, x, h) => AttestJustifiesOnly(g, v, x, h);
    case NewCheckpoint(n, h) => CreateFrame(g, n, h);
    case Finalization(_) =>
    case SetCount(_) =>
  }

  /** An epoch the window has left behind unfinalized stays so, in every rising run. */
  lemma {:induction false} LateStaysOut(g: Engine, run: seq<Event>, e: int)
    requires Consistent(g) && Rising(g, run) && e < g.currentEpoch && e !in g.finalized
    ensures e !in Replay(g, run).finalized && Replay(g, run).currentEpoch >= g.currentEpoch
    decreases |run|
  {
    if run != [] {
      var front, last := run[..|run| - 1], run[|run| - 1];
      LateStaysOut(g, front, e);
      ReplayKeeps(g, front);
      EventFinalizes(Replay(g, front), last, e);
      EventEpoch(Replay(g, front), last);
      hide Apply, Consistent, Evolves;
    }
  }

  /** Below the window the finalized set is exact. */
  ghost predicate ExactBelow(g: Engine) {
    forall e :: e < g.currentEpoch ==> (e in g.finalized <==> Pair(g, e))
  }

  /** The attestation is accepted and completes a quorum. */
  predicate NewlyJustifies(g: Engine, v: string, e: int, h: string) {
    e !in g.justified && e in AddAttestation(g, v, e, h).justified
  }

  /** An attestation is late when it completes a pair of epochs below the window; known
      from the engine before the call. */
  predicate Late(g: Engine, ev: Event) {
    ev.Attestation? && NewlyJustifies(g, ev.validator, ev.epoch, ev.target)
    && ((ev.epoch < g.currentEpoch && ev.epoch - 1 in g.justified)
        || (ev.epoch + 1 < g.currentEpoch && ev.epoch + 1 in g.justified))
  }

  predicate NoneLate(g: Engine, run: seq<Event>)
    decreases |run|
  {
    run == [] || (NoneLate(g, run[..|run| - 1]) && !Late(Replay(g, run[..|run| - 1]), run[|run| - 1]))
  }

  lemma AttestBelow(g: Engine, v: string, x: int, h: string)
    requires Consistent(g) && ExactBelow(g)
    ensures ExactBelow(AddAttestation(g, v, x, h)) <==> !Late(g, Attestation(v, x, h))
  {
    hide AddAttestation, Consistent, Evolves;
    AttestJustifiesOnly(g, v, x, h);
    AttestKeeps(g, v, x, h);
    var g' := AddAttestation(g, v, x, h);
    JustifiedStays(g, g', x);
    if Late(g, Attestation(v, x, h)) {
      var y := if x < g.currentEpoch && x - 1 in g.justified then x else x + 1;
      assert y < g.currentEpoch && Pair(g', y) && !Pair(g, y);
      assert y !in g'.finalized;
    } else {
      forall e | e < g'.currentEpoch ensures e in g'.finalized <==> Pair(g', e) {
        assert e in g.finalized <==> Pair(g, e);
      }
    }
  }

  lemma JustifiedStays(g: Engine, h: Engine, x: int)
    requires Consistent(g) && Consistent(h) && Evolves(g, h)
    ensures x in g.justified ==> x in h.justified
  {
  }

  lemma BlockBelow(g: Engine, n: int, h: string, v: string)
    requires Consistent(g) && ExactBelow(g) && EpochOf(n) >= g.currentEpoch
    ensures ExactBelow(ProcessBlock(g, n, h, v))
  {
    ProcessFinalizes(g, n, h, v);
    ProcessKeeps(g, n, h, v);
    var g' := ProcessBlock(g, n, h, v);
    hide ProcessBlock, Evolves;
    forall e | e < g'.currentEpoch ensures e in g'.finalized <==> Pair(g', e) {
      assert e in g'.finalized <==> WindowDue(g, g', EpochOf(n), e);
      assert e < g.currentEpoch ==> (e in g.finalized <==> Pair(g, e));
    }
  }

  lemma EventBelow(g: Engine, ev: Event)
    requires Consistent(g) && ExactBelow(g) && RisingEvent(g, ev)
    ensures ExactBelow(Apply(g, ev)) <==> !Late(g, ev)
  {
    match ev
    case Block(n, h, v) => BlockBelow(g, n, h, v);
    case Attestation(v, x, h) => AttestBelow(g, v, x, h);
    case NewCheckpoint(n, h) => CreateFrame(g, n, h);
    case SetCount(_) =>
  }

  /** An inexact epoch below the window cannot be repaired in a rising run. */
  lemma StaysInexact(g: Engine, ev: Event)
    requires Consistent(g) && !ExactBelow(g) && RisingEvent(g, ev)
    ensures !ExactBelow(Apply(g, ev))
  {
    var e :| e < g.currentEpoch && !(e in g.finalized <==> Pair(g, e));
    assert Pair(g, e) && e !in g.finalized by { FinalizedPair(g, e); }
    ApplyKeeps(g, ev);
    EventFinalizes(g, ev, e);
    EventEpoch(g, ev);
    JustifiedStays(g, Apply(g, ev), e);
    JustifiedStays(g, Apply(g, ev), e - 1);
    hide Apply, Consistent, Evolves;
  }

  lemma FinalizedPair(g: Engine, e: int)
    requires Consistent(g)
    ensures e in g.finalized ==> Pair(g, e)
  {
  }

  /** In rising runs, from the start, the finalized set is exact below the window if and
      only if no attestation came late. */
  lemma {:induction false} ExactBelowExactly(run: seq<Event>, count: nat)
    requires Rising(Initial(count), run)
    ensures ExactBelow(Replay(Initial(count), run)) <==> NoneLate(Initial(count), run)
    decreases |run|
  {
    if run != [] {
      var front, last := run[..|run| - 1], run[|run| - 1];
      ExactBelowExactly(front, count);
      ReplayKeeps(Initial(count), front);
      var g := Replay(Initial(count), front);
      hide Apply, Consistent, Evolves, Late;
      if ExactBelow(g) {
        EventBelow(g, last);
      } else {
        StaysInexact(g, last);
      }
    }
  }

  /** And after a block the whole finalized set is {e : e and e-1 justified} if and only
      if no attestation came late and no two epochs are justified ahead of the block. */
  lemma ExactAfterBlockExactly(run: seq<Event>, count: nat)
    requires Rising(Initial(count), run) && run != [] && run[|run| - 1].Block?
    ensures var g := Replay(Initial(count), run);
      Exact(g) <==> NoneLate(Initial(count), run) && forall e :: e > g.currentEpoch ==> !Pair(g, e)
  {
    hide ProcessBlock, Consistent, Evolves, NoneLate, Replay, ExactBelow, Exact, WindowFinalized;
    ExactBelowExactly(run, count);
    var front, last := run[..|run| - 1], run[|run| - 1];
    var b, g := Replay(Initial(count), front), Replay(Initial(count), run);
    InitialConsistent(count);
    ReplayKeeps(Initial(count), front);
    ProcessFinalizes(b, last.number, last.hash, last.proposer);
    NothingAhead(front, count);
    ReplayLast(count, run);
    ReplayKeeps(Initial(count), run);
    forall e | e in g.finalized ensures Pair(g, e) {
      FinalizedPair(g, e);
    }
    ExactSplits(b, g, EpochOf(last.number));
  }

  /** After a block: exact everywhere is exact below, with nothing justified ahead. */
  lemma ExactSplits(b: Engine, g: Engine, last: int)
    requires WindowFinalized(b, g, last) && g.currentEpoch == last >= b.currentEpoch
    requires forall e :: e in b.finalized ==> e <= b.currentEpoch
    requires forall e :: e in g.finalized ==> Pair(g, e)
    ensures Exact(g) <==> ExactBelow(g) && forall e :: e > g.currentEpoch ==> !Pair(g, e)
  {
    if Exact(g) {
      forall e | e > g.currentEpoch ensures !Pair(g, e) {
        assert e in g.finalized <==> WindowDue(b, g, last, e);
      }
    }
    if ExactBelow(g) && forall e :: e > g.currentEpoch ==> !Pair(g, e) {
      forall e ensures e in g.finalized <==> e in g.justified && e - 1 in g.justified {
        assert e in g.finalized <==> WindowDue(b, g, last, e);
        assert e < g.currentEpoch ==> (e in g.finalized <==> Pair(g, e));
        assert e > g.currentEpoch ==> !Pair(g, e);
      }
    }
  }

  lemma ReplayLast(count: nat, run: seq<Event>)
    requires run != [] && run[|run| - 1].Block?
    ensures var front, last := run[..|run| - 1], run[|run| - 1];
      Replay(Initial(count), run) == ProcessBlock(Replay(Initial(count), front), last.number, last.hash, last.proposer)
  {
  }

  /** Nothing beyond the current epoch is finalized. */
  lemma {:induction false} NothingAhead(run: seq<Event>, count: nat)
    requires Rising(Initial(count), run)
    ensures forall e :: e in Replay(Initial(count), run).finalized ==> e <= Replay(Initial(count), run).currentEpoch
    decreases |run|
  {
    if run != [] {
      var front, last := run[..|run| - 1], run[|run| - 1];
      NothingAhead(front, count);
      ReplayKeeps(Initial(count), front);
      var g := Replay(Initial(count), front);
      EventEpoch(g, last);
      hide Apply, Consistent, Evolves;
      forall e | e in Replay(Initial(count), run).finalized ensures e <= Replay(Initial(count), run).currentEpoch {
        EventFinalizes(g, last, e);
      }
    }
  }

  /** In timely runs the finalized set is exact after every block. */
  lemma {:induction false} FinalizationExact(run: seq<Event>, count: nat)
    requires TimelyRun(Initial(count), run)
    ensures ExactSoFar(Replay(Initial(count), run))
    ensures run != [] && run[|run| - 1].Block? ==> Exact(Replay(Initial(count), run))
    decreases |run|
  {
    if run != [] {
      var front, last := run[..|run| - 1], run[|run| - 1];
      FinalizationExact(front, count);
      ReplayKeeps(Initial(count), front);
      var g := Replay(Initial(count), front);
      match last
      case Block(n, h, v) => BlockExact(g, n, h, v);
      case Attestation(v, e, h) => AttestJustifiesOnly(g, v, e, h);
    }
  }

  lemma ReplaySix(g: Engine, run: seq<Event>)
    requires |run| == 6
    ensures Replay(g, run)
      == Apply(Apply(Apply(Apply(Apply(Apply(g, run[0]), run[1]), run[2]), run[3]), run[4]), run[5])
  {
    hide Apply;
    assert run[..5][..4] == run[..4] && run[..4][..3] == run[..3] && run[..3][..2] == run[..2];
    assert run[..2][..1] == run[..1] && run[..1][..0] == [];
    assert Replay(g, run[..1]) == Apply(g, run[0]);
    assert Replay(g, run[..2]) == Apply(Replay(g, run[..1]), run[1]);
    assert Replay(g, run[..3]) == Apply(Replay(g, run[..2]), run[2]);
    assert Replay(g, run[..4]) == Apply(Replay(g, run[..3]), run[3]);
    assert Replay(g, run[..5]) == Apply(Replay(g, run[..4]), run[4]);
  }

  function LateRun(): seq<Event> {
    [Block(0, "h0", "a"), Attestation("b", 0, "h0"),
     Block(32, "h1", "a"),
     Block(64, "h2", "a"), Attestation("b", 1, "h1"),
     Block(65, "h2", "b")]
  }

  /** A late quorum: three validators, and the second vote for epoch 1 arrives when the
      window is past it. Epochs 0 and 1 are justified and 1 is not finalized. */
  lemma LateQuorumMisses()
    ensures var g := Replay(Initial(3), LateRun());
      && Consistent(g) && 0 in g.justified && 1 in g.justified && 1 !in g.finalized && g.currentEpoch == 2
  {
    hide ProcessBlock, AddAttestation, Evolves, Replay, Consistent;
    var run := LateRun();
    ReplaySix(Initial(3), run);
    InitialConsistent(3);
    var g1 := Apply(Initial(3), run[0]);
    FreshBlock(Initial(3), 0, "h0", "a");
    ApplyKeeps(Initial(3), run[0]);
    var g2 := Apply(g1, run[1]);
    SecondVote(g1, 0, "h0", "a", "b");
    ApplyKeeps(g1, run[1]);
    var g3 := Apply(g2, run[2]);
    FreshBlock(g2, 32, "h1", "a");
    ApplyKeeps(g2, run[2]);
    var g4 := Apply(g3, run[3]);
    FreshBlock(g3, 64, "h2", "a");
    ApplyKeeps(g3, run[3]);
    var g5 := Apply(g4, run[4]);
    SecondVote(g4, 1, "h1", "a", "b");
    ApplyKeeps(g4, run[4]);
    FinalizedIsJustified(g4, 1);
    ProcessFinalizes(g5, 65, "h2", "b");
    ApplyKeeps(g5, run[5]);
  }

  /** However the late run goes on, as long as it rises, epoch 1 is never finalized. */
  lemma LateQuorumIsNeverFinalized(more: seq<Event>)
    requires Rising(Replay(Initial(3), LateRun()), more)
    ensures 1 !in Replay(Replay(Initial(3), LateRun()), more).finalized
  {
    LateQuorumMisses();
    LateStaysOut(Replay(Initial(3), LateRun()), more, 1);
  }

  /** It need not rise: a block from an older epoch moves the window back, and the next
      block then finalizes epoch 1. So does a call of finalize_checkpoint. */
  lemma OlderBlockReopensWindow()
    ensures var g := Replay(Initial(3), LateRun());
      && 1 in ProcessBlock(ProcessBlock(g, 33, "h1", "a"), 65, "h2", "b").finalized
      && 1 in FinalizeCheckpoint(g, 1).finalized
  {
    LateQuorumMisses();
    hide Replay, LateRun, Evolves;
    var g := Replay(Initial(3), LateRun());
    ProcessFinalizes(g, 33, "h1", "a");
    ProcessKeeps(g, 33, "h1", "a");
    var b := ProcessBlock(g, 33, "h1", "a");
    JustifiedStays(g, b, 0);
    JustifiedStays(g, b, 1);
    ProcessFinalizes(b, 65, "h2", "b");
    ProcessKeeps(b, 65, "h2", "b");
    JustifiedStays(b, ProcessBlock(b, 65, "h2", "b"), 0);
    JustifiedStays(b, ProcessBlock(b, 65, "h2", "b"), 1);
    FinalizeKeeps(g, 1);
    hide ProcessBlock, FinalizeCheckpoint, Consistent;
    assert 1 in ProcessBlock(b, 65, "h2", "b").finalized <==> WindowDue(b, ProcessBlock(b, 65, "h2", "b"), 2, 1);
  }

  lemma FinalizedIsJustified(g: Engine, e: int)
    requires Consistent(g)
    ensures e in g.finalized ==> e in g.justified
  {
  }

  lemma InitialConsistent(count: nat)
    ensures Consistent(Initial(count))
  {
  }

  predicate OneVote(g: Engine, e: int, hash: string, voter: string) {
    e in g.checkpoints && g.checkpoints[e].blockHash == hash && VotesOf(g.votes, e) == [voter] && e !in g.justified
  }

  /** A block that opens an epoch, with a quorum of two: one vote, nothing justified. */
  lemma FreshBlock(g: Engine, n: int, h: string, v: string)
    requires Consistent(g) && g.validatorCount == 3 && EpochOf(n) !in g.checkpoints
    ensures var g' := ProcessBlock(g, n, h, v);
      && OneVote(g', EpochOf(n), h, v)
      && g'.validatorCount == 3 && g'.currentEpoch == EpochOf(n)
      && g'.checkpoints.Keys == g.checkpoints.Keys + {EpochOf(n)}
      && (forall e :: e in g'.justified <==> e in g.justified)
      && (forall e, hash, w :: OneVote(g, e, hash, w) ==> OneVote(g', e, hash, w))
  {
    hide Consistent, Evolves, CreateCheckpoint, AddAttestation, FinalizeRange;
    var e := EpochOf(n);
    var g1 := CreateCheckpoint(g, n, h);
    CreateKeeps(g, n, h);
    var g2 := AddAttestation(g1, v, e, h);
    AttestKeeps(g1, v, e, h);
    FreshVote(g, n, h, v);
    FinalizeRangeExact(g2, g.currentEpoch, e + 1);
  }

  /** The same before the loop over the window. */
  lemma FreshVote(g: Engine, n: int, h: string, v: string)
    requires Consistent(g) && g.validatorCount == 3 && EpochOf(n) !in g.checkpoints
    ensures var g2 := AddAttestation(CreateCheckpoint(g, n, h), v, EpochOf(n), h);
      && OneVote(g2, EpochOf(n), h, v) && g2.validatorCount == 3
      && g2.checkpoints.Keys == g.checkpoints.Keys + {EpochOf(n)} && g2.justified == g.justified
      && (forall e, hash, w :: OneVote(g, e, hash, w) ==> OneVote(g2, e, hash, w))
  {
    var g2 := AddAttestation(CreateCheckpoint(g, n, h), v, EpochOf(n), h);
    assert g2.justified == g.justified;
    assert VotesOf(g2.votes, EpochOf(n)) == [v];
  }

  lemma SecondVote(g: Engine, e: int, h: string, v: string, w: string)
    requires Consistent(g) && g.validatorCount == 3 && OneVote(g, e, h, v) && v != w
    ensures var g' := AddAttestation(g, w, e, h);
      && g'.justified == g.justified + [e] && g'.finalized == g.finalized
      && g'.validatorCount == 3 && g'.currentEpoch == g.currentEpoch && g'.checkpoints.Keys == g.checkpoints.Keys
  {
  }
}
