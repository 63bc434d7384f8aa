/**
 * A leader's database: it executes proposals as they arrive, before they are ordered, and replays the
 * decided part of its log over the same database.
 */
module LeaderDatabase {
  import opened Wrappers
  import opened KvStore
  import opened FastPath
  import F = Follower

  datatype Step = Propose(command: Command) | Append(command: Command) | Confirm(command: Command, idx: nat) | Replay

  datatype State = State(server: F.Server, speculations: seq<Speculation>)

  /** A replay is of a decided part that has been appended. */
  predicate Enabled(s: State, step: Step) {
    step.Replay? ==> F.CanReplay(s.server)
  }

  function Perform(s: State, step: Step): State
    requires Enabled(s, step)
  {
    match step
    case Propose(command) =>
      var (server, speculation) := F.Proposed(s.server, true, command);
      State(server, s.speculations + [speculation])
    case Append(command) => s.(server := s.server.(log := s.server.log + [command]))
    case Confirm(command, idx) => s.(server := F.Confirmed(s.server, true, command, idx))
    case Replay => s.(server := F.Replayed(s.server))
  }

  function Start(id: nat): State {
    State(F.Server(id, map[], [], 0, 0), [])
  }

  function After(s: State, steps: seq<Step>): Option<State> {
    if |steps| == 0 then Some(s)
    else
      match After(s, steps[..|steps| - 1])
      case None => None
      case Some(m) => if Enabled(m, steps[|steps| - 1]) then Some(Perform(m, steps[|steps| - 1])) else None
  }

  /** The commands that the steps propose, in order of arrival. */
  function Proposals(steps: seq<Step>): seq<Command> {
    if |steps| == 0 then []
    else
      var before, last := steps[..|steps| - 1], steps[|steps| - 1];
      if last.Propose? then Proposals(before) + [last.command] else Proposals(before)
  }

  /** The commands that the steps append, in log order. */
  function Appended(steps: seq<Step>): seq<Command> {
    if |steps| == 0 then []
    else
      var before, last := steps[..|steps| - 1], steps[|steps| - 1];
      if last.Append? then Appended(before) + [last.command] else Appended(before)
  }

  /** The index of the last confirmation, whatever came after it. */
  function LastConfirmed(steps: seq<Step>): nat {
    if |steps| == 0 then 0
    else
      match steps[|steps| - 1]
      case Confirm(_, idx) => idx
      case _ => LastConfirmed(steps[..|steps| - 1])
  }

  /** Response `i` is the one that executing the proposals in order of arrival gives. */
  predicate SpeculatesOn(speculations: seq<Speculation>, proposals: seq<Command>, i: nat)
    requires i < |speculations| == |proposals|
  {
    speculations[i] == Some(Respond(ExecuteAll(map[], KvOf(proposals[..i])), proposals[i].kv))
  }

  /** The server holds the database of `proposals` and has speculated on each of them. */
  ghost predicate Serves(s: State, proposals: seq<Command>) {
    && s.server.db == ExecuteAll(map[], KvOf(proposals))
    && |s.speculations| == |proposals|
    && forall i :: 0 <= i < |proposals| ==> SpeculatesOn(s.speculations, proposals, i)
  }

  /** What a replay executes. */
  function Stretch(s: F.Server): seq<KVCommand>
    requires F.CanReplay(s)
  {
    if s.currentDecidedIdx < s.decidedIdx then KvOf(s.log[s.currentDecidedIdx..s.decidedIdx]) else []
  }

  /** Whatever `stretch` writes is what the last proposed write of the key left. */
  ghost predicate UpToDate(stretch: seq<KVCommand>, proposals: seq<Command>) {
    forall key :: LastWrite(stretch, key).Some? ==>
      LastWrite(stretch, key).value == LastWrite(KvOf(proposals), key).GetOr(None)
  }

  lemma {:induction false} ProposeServes(s: State, proposals: seq<Command>, command: Command)
    requires Serves(s, proposals)
    ensures Serves(Perform(s, Propose(command)), proposals + [command])
  {
    var s', all := Perform(s, Propose(command)), proposals + [command];
    assert KvOf(all)[..|proposals|] == KvOf(proposals) && all[..|proposals|] == proposals;
    forall i | 0 <= i < |all| ensures SpeculatesOn(s'.speculations, all, i) {
      if i < |proposals| {
        assert SpeculatesOn(s.speculations, proposals, i);
        assert all[..i] == proposals[..i];
      }
    }
  }

  /** A replay leaves a leader's database alone if and only if nothing it writes is out of date. */
  lemma {:induction false} ReplayServesIff(s: State, proposals: seq<Command>)
    requires Serves(s, proposals) && Enabled(s, Replay)
    ensures Serves(Perform(s, Replay), proposals) <==> UpToDate(Stretch(s.server), proposals)
  {
    var stretch, db := Stretch(s.server), s.server.db;
    var replayed := ExecuteAll(db, stretch);
    forall key
      ensures Lookup(replayed, key) == LastWrite(stretch, key).GetOr(Lookup(db, key))
      ensures Lookup(db, key) == LastWrite(KvOf(proposals), key).GetOr(None)
    {
      LastWriteWins(db, stretch, key);
      LastWriteWins(map[], KvOf(proposals), key);
    }
    assert Perform(s, Replay).server.db == replayed;
    if UpToDate(stretch, proposals) {
      SameLookups(replayed, db);
    }
  }

  /** No replay of the run executes an out-of-date write. */
  ghost predicate ReplaysUpToDate(id: nat, steps: seq<Step>) {
    forall k :: 0 <= k < |steps| && steps[k].Replay? ==>
      var m := After(Start(id), steps[..k]);
      m.Some? && F.CanReplay(m.value.server) ==> UpToDate(Stretch(m.value.server), Proposals(steps[..k]))
  }

  lemma {:induction false} EarlierUpToDate(id: nat, steps: seq<Step>)
    requires ReplaysUpToDate(id, steps) && |steps| > 0
    ensures ReplaysUpToDate(id, steps[..|steps| - 1])
  {
    var before := steps[..|steps| - 1];
    forall k | 0 <= k < |before| && before[k].Replay?
      ensures var m := After(Start(id), before[..k]);
              m.Some? && F.CanReplay(m.value.server) ==> UpToDate(Stretch(m.value.server), Proposals(before[..k]))
    {
      assert before[..k] == steps[..k] && steps[k].Replay?;
    }
  }

  /**
   * However proposals, appends, confirmations and up-to-date replays interleave, a leader's database is that
   * of the proposals in order of arrival, each executed once, and so is every response it speculated on. A
   * confirmation moves the decided index and nothing else.
   */
  lemma {:induction false} LeaderServesProposals(id: nat, steps: seq<Step>, s: State)
    requires After(Start(id), steps) == Some(s) && ReplaysUpToDate(id, steps)
    ensures Serves(s, Proposals(steps))
    ensures s.server.log == Appended(steps) && s.server.decidedIdx == LastConfirmed(steps)
  {
    if |steps| > 0 {
      var before, step := steps[..|steps| - 1], steps[|steps| - 1];
      var m := After(Start(id), before).value;
      EarlierUpToDate(id, steps);
      LeaderServesProposals(id, before, m);
      match step
      case Propose(command) => ProposeServes(m, Proposals(before), command);
      case Append(_) =>
      case Confirm(_, _) =>
      case Replay => ReplayServesIff(m, Proposals(before));
    }
  }

  lemma {:induction false} NoReplayIsUpToDate(id: nat, steps: seq<Step>)
    requires forall k :: 0 <= k < |steps| ==> !steps[k].Replay?
    ensures ReplaysUpToDate(id, steps)
  {
  }

  /**
   * The first replay after which it no longer is: two values proposed for one key, and the first one
   * confirmed and replayed before the second is appended. Reads are then speculated with the first.
   */
  lemma {:induction false} LeaderGoesBack(id: nat, first: Command, second: Command, key: string, a: string, b: string)
    requires first.kv == Put(key, a) && second.kv == Put(key, b) && a != b
    ensures var run := [Propose(first), Propose(second), Append(first), Confirm(first, 1)];
            && After(Start(id), run).Some?
            && After(Start(id), run).value.server.db == map[key := b]
            && Enabled(After(Start(id), run).value, Replay)
            && Perform(After(Start(id), run).value, Replay).server.db == map[key := a]
  {
    var s0 := Start(id);
    var run1, run2 := [Propose(first)], [Propose(first), Propose(second)];
    var run3 := run2 + [Append(first)];
    var s1 := OneMore(s0, [], Propose(first), s0);
    assert [] + [Propose(first)] == run1 && run1 + [Propose(second)] == run2;
    var s2 := OneMore(s0, run1, Propose(second), s1);
    var s3 := OneMore(s0, run2, Append(first), s2);
    var s4 := OneMore(s0, run3, Confirm(first, 1), s3);
    assert run3 + [Confirm(first, 1)] == [Propose(first), Propose(second), Append(first), Confirm(first, 1)];
    assert s4.server.db == map[key := b] && s4.server.log == [first];
    assert Stretch(s4.server) == [Put(key, a)] && [Put(key, a)][..0] == [];
    assert ExecuteAll(s4.server.db, [Put(key, a)]) == map[key := b][key := a] == map[key := a];
  }

  lemma {:induction false} OneMore(s: State, steps: seq<Step>, step: Step, m: State) returns (m': State)
    requires After(s, steps) == Some(m) && Enabled(m, step)
    ensures m' == Perform(m, step) && After(s, steps + [step]) == Some(m')
  {
    assert (steps + [step])[..|steps|] == steps;
    m' := Perform(m, step);
  }
}
