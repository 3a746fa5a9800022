/** What an engine has counted, read off the list of events alone: which hash an epoch has,
    who voted for it, and when two thirds were reached. */
module FinalityVotes {
  import opened Wrappers
  import opened Collections
  import opened Finality

  // ------------------------------------------------------------ the events by themselves

  /** The event opens a checkpoint for the epoch. */
  predicate Opens(ev: Event, e: int) {
    (ev.Block? || ev.NewCheckpoint?) && ev.number / 32 == e
  }

  /** The hash of the epoch: that of the first block or checkpoint of it. */
  function HashOf(run: seq<Event>, e: int): Option<string> {
    if run == [] then None
    else
      var before, last := HashOf(run[..|run| - 1], e), run[|run| - 1];
      if before.Some? then before else if Opens(last, e) then Some(last.hash) else None
  }

  /** The last event is a vote by the validator for the epoch and its hash: an attestation that finds
      the checkpoint, or a block of the epoch with that hash. */
  predicate Votes(run: seq<Event>, e: int, validator: string) {
    && run != []
    && var last := run[|run| - 1];
      || (last.Attestation? && last.validator == validator && last.epoch == e
          && HashOf(run[..|run| - 1], e) == Some(last.target))
      || (last.Block? && last.proposer == validator && last.number / 32 == e && HashOf(run, e) == Some(last.hash))
  }

  /** Who voted for the epoch, each counted once. */
  function Voters(run: seq<Event>, e: int): set<string> {
    if run == [] then {}
    else
      var last := run[|run| - 1];
      var voter := if last.Attestation? then last.validator else if last.Block? then last.proposer else "";
      Voters(run[..|run| - 1], e) + if Votes(run, e, voter) then {voter} else {}
  }

  /** The number of active validators, at least one. */
  function Count(run: seq<Event>, count: nat): nat {
    if run == [] then if count == 0 then 1 else count
    else if run[|run| - 1].SetCount? then if run[|run| - 1].count < 1 then 1 else run[|run| - 1].count
    else Count(run[..|run| - 1], count)
  }

  /** The last event is a vote for the epoch, and with it two thirds have voted. */
  ghost predicate Completes(run: seq<Event>, e: int, count: nat) {
    (exists v :: Votes(run, e, v)) && 3 * |Voters(run, e)| >= 2 * Count(run, count)
  }

  ghost predicate Completed(run: seq<Event>, e: int, count: nat) {
    exists k :: 0 < k <= |run| && Completes(run[..k], e, count)
  }

  lemma CompletedExtends(run: seq<Event>, ev: Event, e: int, count: nat)
    ensures Completed(run + [ev], e, count) <==> Completed(run, e, count) || Completes(run + [ev], e, count)
  {
    hide Completes;
    var all := run + [ev];
    assert all[..|all|] == all;
    forall k | 0 < k <= |run| ensures all[..k] == run[..k] {
    }
    if Completed(run, e, count) {
      var k :| 0 < k <= |run| && Completes(run[..k], e, count);
      assert Completes(all[..k], e, count);
    }
  }

  /** Voters are those whose vote is somewhere in the run. */
  lemma {:induction false} VotersVoted(run: seq<Event>, e: int, v: string)
    ensures v in Voters(run, e) <==> exists k :: 0 < k <= |run| && Votes(run[..k], e, v)
  {
    if run != [] {
      var front := run[..|run| - 1];
      VotersVoted(front, e, v);
      assert run[..|run|] == run;
      forall k | 0 < k <= |front| ensures run[..k] == front[..k] {
      }
      if v in Voters(front, e) {
        var k :| 0 < k <= |front| && Votes(front[..k], e, v);
        assert Votes(run[..k], e, v);
      }
    }
  }

  // ------------------------------------------------------------ the engine follows them

  /** At one epoch the engine holds what the events say. */
  ghost predicate Tracks(g: Engine, run: seq<Event>, e: int, count: nat) {
    && (e in g.checkpoints <==> HashOf(run, e).Some?)
    && (e in g.checkpoints ==> HashOf(run, e) == Some(g.checkpoints[e].blockHash))
    && SetOf(VotesOf(g.votes, e)) == Voters(run, e)
    && (e in g.justified <==> Completed(run, e, count))
  }

  lemma ConsistentAt(g: Engine, e: int)
    requires Consistent(g) && e in g.checkpoints
    ensures g.checkpoints[e].votes == |SetOf(VotesOf(g.votes, e))|
    ensures e in g.justified <==> g.checkpoints[e].isJustified
  {
    hide SetOf;
    DistinctCount(VotesOf(g.votes, e));
  }

  lemma OneMore(s: seq<string>, v: string)
    ensures SetOf(s + [v]) == SetOf(s) + {v}
    ensures v in s ==> SetOf(s) == SetOf(s) + {v}
  {
  }

  lemma RecordedAt(g: Engine, v: string, e: int)
    requires e in g.checkpoints
    ensures var r := RecordVote(g, v, e);
      && SetOf(VotesOf(r.votes, e)) == SetOf(VotesOf(g.votes, e)) + {v} && r.justified == g.justified
      && r.validatorCount == g.validatorCount && r.checkpoints.Keys == g.checkpoints.Keys
  {
    hide SetOf;
    OneMore(VotesOf(g.votes, e), v);
  }

  /** A vote for the epoch as the engine takes it: recorded once, then the quorum is looked at. */
  lemma AcceptedAt(g: Engine, v: string, e: int)
    requires Consistent(g) && e in g.checkpoints
    ensures var a, n := Justify(RecordVote(g, v, e), e), Max(1, g.validatorCount);
      && SetOf(VotesOf(a.votes, e)) == SetOf(VotesOf(g.votes, e)) + {v}
      && (e in a.justified <==> e in g.justified || 3 * |SetOf(VotesOf(a.votes, e))| >= 2 * n)
  {
    RecordVoteKeeps(g, v, e);
    RecordedAt(g, v, e);
    ConsistentAt(RecordVote(g, v, e), e);
    hide Consistent, RecordVote, SetOf, NoDup;
  }

  /** One attestation, seen from one epoch. */
  lemma AttestAt(g: Engine, v: string, x: int, h: string, e: int)
    requires Consistent(g)
    ensures var a := AddAttestation(g, v, x, h);
      var counts := x == e && e in g.checkpoints && g.checkpoints[e].blockHash == h;
      && a.validatorCount == g.validatorCount && a.checkpoints.Keys == g.checkpoints.Keys
      && (e in g.checkpoints ==> a.checkpoints[e].blockHash == g.checkpoints[e].blockHash)
      && SetOf(VotesOf(a.votes, e)) == SetOf(VotesOf(g.votes, e)) + (if counts then {v} else {})
      && (e in a.justified <==>
            e in g.justified
            || (counts && 3 * |SetOf(VotesOf(a.votes, e))| >= 2 * Max(1, g.validatorCount)))
  {
    hide SetOf, Consistent, Quorum;
    if e in g.checkpoints && x == e {
      AcceptedAt(g, v, e);
    }
  }

  /** One more event: what it does to the hash, the voters and the quorum of one epoch. */
  lemma VotesOfLast(run: seq<Event>, ev: Event, e: int, count: nat)
    ensures var all := run + [ev];
      var hash := if HashOf(run, e).Some? then HashOf(run, e) else if Opens(ev, e) then Some(ev.hash) else None;
      var voter := if ev.Attestation? then ev.validator else if ev.Block? then ev.proposer else "";
      var counts := (ev.Attestation? && ev.epoch == e && HashOf(run, e) == Some(ev.target))
                    || (ev.Block? && ev.number / 32 == e && hash == Some(ev.hash));
      && HashOf(all, e) == hash
      && Voters(all, e) == Voters(run, e) + (if counts then {voter} else {})
      && (Completes(all, e, count) <==> counts && 3 * |Voters(all, e)| >= 2 * Count(all, count))
      && Count(all, count) == if ev.SetCount? then if ev.count < 1 then 1 else ev.count else Count(run, count)
  {
    var all := run + [ev];
    assert all[..|run|] == run;
    var voter := if ev.Attestation? then ev.validator else if ev.Block? then ev.proposer else "";
    assert forall v :: Votes(all, e, v) ==> v == voter;
  }

  lemma AttestTracks(g: Engine, run: seq<Event>, ev: Event, e: int, count: nat)
    requires Consistent(g) && Tracks(g, run, e, count) && ev.Attestation?
    requires Max(1, g.validatorCount) == Count(run, count)
    ensures Tracks(Apply(g, ev), run + [ev], e, count)
    ensures Apply(g, ev).validatorCount == g.validatorCount
  {
    hide Consistent, AddAttestation, HashOf, Voters, Completes, Completed, SetOf, VotesOf, Count;
    AttestAt(g, ev.validator, ev.epoch, ev.target, e);
    VotesOfLast(run, ev, e, count);
    CompletedExtends(run, ev, e, count);
  }

  lemma BlockTracks(g: Engine, run: seq<Event>, ev: Event, e: int, count: nat)
    requires Consistent(g) && Tracks(g, run, e, count) && ev.Block?
    requires Max(1, g.validatorCount) == Count(run, count)
    ensures Tracks(Apply(g, ev), run + [ev], e, count)
    ensures Apply(g, ev).validatorCount == g.validatorCount
  {
    hide Consistent, AddAttestation, FinalizeRange, HashOf, Voters, Completes, Completed, SetOf, Count, Evolves;
    var g1 := CreateCheckpoint(g, ev.number, ev.hash);
    CreateKeeps(g, ev.number, ev.hash);
    AttestAt(g1, ev.proposer, EpochOf(ev.number), ev.hash, e);
    AttestKeeps(g1, ev.proposer, EpochOf(ev.number), ev.hash);
    var g2 := AddAttestation(g1, ev.proposer, EpochOf(ev.number), ev.hash);
    FinalizeRangeExact(g2, g.currentEpoch, EpochOf(ev.number) + 1);
    VotesOfLast(run, ev, e, count);
    CompletedExtends(run, ev, e, count);
  }

  lemma OtherTracks(g: Engine, run: seq<Event>, ev: Event, e: int, count: nat)
    requires Consistent(g) && Tracks(g, run, e, count) && !ev.Block? && !ev.Attestation?
    requires Max(1, g.validatorCount) == Count(run, count)
    ensures Tracks(Apply(g, ev), run + [ev], e, count)
    ensures !ev.SetCount? ==> Apply(g, ev).validatorCount == g.validatorCount
  {
    hide Consistent, FinalizeCheckpoint, HashOf, Voters, Completes, Completed, SetOf, Count, Evolves, RangeFinalized;
    if ev.Finalization? {
      FinalizeKeeps(g, ev.epoch);
    }
    VotesOfLast(run, ev, e, count);
    CompletedExtends(run, ev, e, count);
  }

  lemma {:induction false} RunTracks(run: seq<Event>, e: int, count: nat)
    ensures var g := Replay(Initial(count), run);
      && Consistent(g) && Tracks(g, run, e, count)
      && Max(1, g.validatorCount) == Count(run, count)
  {
    if run == [] {
      ReplayKeeps(Initial(count), run);
    } else {
      var front, last := run[..|run| - 1], run[|run| - 1];
      RunTracks(front, e, count);
      ReplayKeeps(Initial(count), run);
      assert front + [last] == run;
      hide Consistent, Evolves, Tracks;
      var g := Replay(Initial(count), front);
      if last.Block? {
        BlockTracks(g, front, last, e, count);
      } else if last.Attestation? {
        AttestTracks(g, front, last, e, count);
      } else {
        OtherTracks(g, front, last, e, count);
      }
    }
  }

  /** The votes an engine holds for an epoch are, each once, those of the validators who voted for its
      hash once it had one; the hash is that of the first block or checkpoint of the epoch. */
  lemma VotesExactly(run: seq<Event>, e: int, count: nat)
    ensures var g := Replay(Initial(count), run);
      && NoDup(VotesOf(g.votes, e)) && SetOf(VotesOf(g.votes, e)) == Voters(run, e)
      && (e in g.checkpoints <==> HashOf(run, e).Some?)
      && (e in g.checkpoints ==> HashOf(run, e) == Some(g.checkpoints[e].blockHash))
  {
    RunTracks(run, e, count);
  }

  /** Justification, exactly: an epoch is justified if and only if after some event that votes for its
      hash at least two thirds of the validators active then have voted for it. */
  lemma JustifiedExactly(run: seq<Event>, e: int, count: nat)
    ensures e in Replay(Initial(count), run).justified <==>
      exists k :: 0 < k <= |run| && (exists v :: Votes(run[..k], e, v))
                  && 3 * |Voters(run[..k], e)| >= 2 * Count(run[..k], count)
  {
    RunTracks(run, e, count);
    hide HashOf, Voters, Votes, Count;
    if Completed(run, e, count) {
      var k :| 0 < k <= |run| && Completes(run[..k], e, count);
      assert exists v :: Votes(run[..k], e, v);
    }
    if k :| 0 < k <= |run| && (exists v :: Votes(run[..k], e, v))
            && 3 * |Voters(run[..k], e)| >= 2 * Count(run[..k], count) {
      assert Completes(run[..k], e, count);
    }
  }

  predicate SteadyCount(run: seq<Event>) {
    forall i :: 0 <= i < |run| ==> !run[i].SetCount?
  }

  /** While the number of validators stays, an epoch is justified if and only if two thirds of them
      have voted for its hash. */
  lemma {:induction false} JustifiedByTwoThirds(run: seq<Event>, e: int, n: nat)
    requires n >= 1 && SteadyCount(run)
    ensures e in Replay(Initial(n), run).justified <==> 3 * |Voters(run, e)| >= 2 * n
    ensures Count(run, n) == n
  {
    if run != [] {
      var front, last := run[..|run| - 1], run[|run| - 1];
      JustifiedByTwoThirds(front, e, n);
      RunTracks(front, e, n);
      RunTracks(run, e, n);
      assert front + [last] == run;
      CompletedExtends(front, last, e, n);
      VotesOfLast(front, last, e, n);
      SubsetSize(Voters(front, e), Voters(run, e));
      hide Consistent, HashOf, Voters, Completes, Completed, Count, SetOf;
    }
  }

  // ------------------------------------------------------------ finalization

  /** The epoch of the last block, 0 before the first. */
  function LastEpoch(run: seq<Event>): int {
    if run == [] then 0
    else if run[|run| - 1].Block? then run[|run| - 1].number / 32
    else LastEpoch(run[..|run| - 1])
  }

  lemma {:induction false} EpochFollows(run: seq<Event>, count: nat)
    ensures Replay(Initial(count), run).currentEpoch == LastEpoch(run)
  {
    if run != [] {
      var front, last := run[..|run| - 1], run[|run| - 1];
      EpochFollows(front, count);
      ReplayKeeps(Initial(count), front);
      EventEpoch(Replay(Initial(count), front), last);
      hide Consistent, Apply;
    }
  }

  /** Two thirds of n voted for the epoch. */
  predicate TwoThirds(run: seq<Event>, e: int, n: nat) {
    3 * |Voters(run, e)| >= 2 * n
  }

  /** At event k two thirds have voted for the epoch and for the one before, and somebody finalizes
      it, or a block comes whose window, from the epoch of the block before to its own, holds it. */
  predicate Reached(run: seq<Event>, k: int, e: int, n: nat)
    requires 0 <= k < |run|
  {
    && TwoThirds(run[..k + 1], e, n) && TwoThirds(run[..k + 1], e - 1, n)
    && (run[k] == Finalization(e) || (run[k].Block? && LastEpoch(run[..k]) <= e <= run[k].number / 32))
  }

  lemma CaughtByVotes(run: seq<Event>, k: int, e: int, n: nat)
    requires n >= 1 && SteadyCount(run) && 0 <= k < |run|
    ensures Caught(Initial(n), run, k, e) <==> Reached(run, k, e, n)
  {
    JustifiedByTwoThirds(run[..k + 1], e, n);
    JustifiedByTwoThirds(run[..k + 1], e - 1, n);
    EpochFollows(run[..k], n);
    hide Voters, LastEpoch, Replay;
  }

  /** Finalization from the events alone, while the number of validators stays. */
  lemma FinalizedByTwoThirds(run: seq<Event>, e: int, n: nat)
    requires n >= 1 && SteadyCount(run)
    ensures e in Replay(Initial(n), run).finalized <==> exists k :: 0 <= k < |run| && Reached(run, k, e, n)
  {
    InitialConsistent(n);
    FinalizedExactly(Initial(n), run, e);
    forall k | 0 <= k < |run| ensures Caught(Initial(n), run, k, e) <==> Reached(run, k, e, n) {
      CaughtByVotes(run, k, e, n);
    }
    hide Consistent, Caught, Reached, Replay;
  }

  /** The reported status, from the events alone. */
  lemma StatusByTwoThirds(run: seq<Event>, e: int, n: nat)
    requires n >= 1 && SteadyCount(run)
    ensures var status := StatusOf(Replay(Initial(n), run), e);
      && (status == Finalized <==> exists k :: 0 <= k < |run| && Reached(run, k, e, n))
      && (status == Pending <==> !TwoThirds(run, e, n))
  {
    FinalizedByTwoThirds(run, e, n);
    JustifiedByTwoThirds(run, e, n);
    InitialConsistent(n);
    ReplayKeeps(Initial(n), run);
    FinalizedIsJustified(Replay(Initial(n), run), e);
    hide Voters, Replay, Reached, Consistent, Evolves;
  }
}
