/**
 * A follower's database: it executes each confirmed command when the confirmation arrives and
 * later replays the decided part of its own log over the same database.
 */
module Follower {
  import opened Wrappers
  import opened KvStore
  import opened FastPath
  import opened Quorums
  import Delivery = FastPathDelivery
  import Order = FastPathOrder

  datatype Server = Server(id: nat, db: Contents, log: seq<Command>, decidedIdx: nat, currentDecidedIdx: nat)

  /** A leader executes a proposal at once and speculates on the response. */
  function Proposed(s: Server, leads: bool, command: Command): (Server, Speculation) {
    if leads then (s.(db := Execute(s.db, command.kv)), Some(Respond(s.db, command.kv))) else (s, None)
  }

  /** A confirmation executes the command, unless the leader already has, and moves the decided index. */
  function Confirmed(s: Server, leads: bool, command: Command, acceptedIdx: nat): Server {
    s.(db := if leads then s.db else Execute(s.db, command.kv), decidedIdx := acceptedIdx)
  }

  /** Replaying a decided index beyond the log is a panic in the source. */
  predicate CanReplay(s: Server) {
    s.currentDecidedIdx < s.decidedIdx ==> s.decidedIdx <= |s.log|
  }

  function Replayed(s: Server): Server
    requires CanReplay(s)
  {
    if s.currentDecidedIdx < s.decidedIdx then
      s.(db := ExecuteAll(s.db, KvOf(s.log[s.currentDecidedIdx..s.decidedIdx])), currentDecidedIdx := s.decidedIdx)
    else s
  }

  type Answer = (nat, nat, Response)

  /** What a server tells the clients it coordinates while it executes `commands` over `db`. */
  function Answers(id: nat, db: Contents, commands: seq<Command>): seq<Answer> {
    if |commands| == 0 then []
    else
      var before, last := commands[..|commands| - 1], commands[|commands| - 1];
      if last.coordinatorId == id
      then Answers(id, db, before) + [(last.clientId, last.id, Respond(ExecuteAll(db, KvOf(before)), last.kv))]
      else Answers(id, db, before)
  }

  class FollowerServer {
    const id: nat
    const database: Database
    var log: seq<Command>
    var decidedIdx: nat
    var currentDecidedIdx: nat
    /** Responses sent to clients: client, command and result. */
    var responses: seq<Answer>

    ghost function View(): Server
      reads this, database
    {
      Server(id, database.db, log, decidedIdx, currentDecidedIdx)
    }

    constructor (id: nat, database: Database)
      requires database.db == map[]
      ensures this.database == database && View() == Server(id, map[], [], 0, 0) && responses == []
    {
      this.id, this.database := id, database;
      log, decidedIdx, currentDecidedIdx, responses := [], 0, 0, [];
    }

    method HandleNewProposal(leads: bool, entry: Command) returns (speculation: Speculation)
      modifies database
      ensures (View(), speculation) == Proposed(old(View()), leads, entry)
      ensures leads ==> speculation == Some(Respond(old(database.db), entry.kv))
      ensures !leads ==> speculation == None && database.db == old(database.db)
    {
      speculation := None;
      if leads {
        var response := database.HandleCommand(entry.kv);
        speculation := Some(response);
      }
    }

    method HandleExecution(leads: bool, entry: Command, acceptedIdx: nat)
      modifies this`decidedIdx, database
      ensures View() == Confirmed(old(View()), leads, entry, acceptedIdx)
      ensures leads ==> database.db == old(database.db)
      ensures !leads ==> database.db == Execute(old(database.db), entry.kv)
    {
      if !leads {
        var _ := database.HandleCommand(entry.kv);
      }
      decidedIdx := acceptedIdx;
    }

    method HandleDecidedEntries() returns (panicked: bool)
      modifies this`currentDecidedIdx, this`responses, database
      ensures panicked <==> old(currentDecidedIdx) < decidedIdx && |log| < decidedIdx
      ensures panicked ==> View() == old(View()) && responses == old(responses)
      ensures !panicked ==>
                && View() == Replayed(old(View()))
                && currentDecidedIdx == Max(old(currentDecidedIdx), decidedIdx)
                && responses == old(responses) +
                                if old(currentDecidedIdx) < decidedIdx
                                then Answers(id, old(database.db), log[old(currentDecidedIdx)..decidedIdx])
                                else []
    {
      panicked := false;
      if currentDecidedIdx < decidedIdx {
        if decidedIdx > |log| {
          return true;
        }
        var entries := log[currentDecidedIdx..decidedIdx];
        currentDecidedIdx := decidedIdx;
        UpdateDatabaseAndRespond(entries);
      }
    }

    method UpdateDatabaseAndRespond(commands: seq<Command>)
      modifies this`responses, database
      ensures database.db == ExecuteAll(old(database.db), KvOf(commands))
      ensures responses == old(responses) + Answers(id, old(database.db), commands)
    {
      var i := 0;
      while i < |commands|
        invariant 0 <= i <= |commands|
        invariant database.db == ExecuteAll(old(database.db), KvOf(commands[..i]))
        invariant responses == old(responses) + Answers(id, old(database.db), commands[..i])
      {
        var command := commands[i];
        var read := database.HandleCommand(command.kv);
        if command.coordinatorId == id {
          responses := responses + [(command.clientId, command.id, read)];
        }
        i := i + 1;
        assert KvOf(commands[..i])[..i - 1] == KvOf(commands[..i - 1]);
        assert commands[..i][..i - 1] == commands[..i - 1];
      }
      assert commands[..i] == commands;
    }
  }

  // Runs of a follower that is sent a stream of confirmations.

  datatype Step = Append(command: Command) | Confirm | Replay

  /** A follower that has received the first `received` confirmations of a stream, and may have panicked since. */
  datatype State = State(server: Server, received: nat, panicked: bool)

  /** The commands of the log that the first `k` confirmations confirmed. */
  function ConfirmedCommands(confirmed: seq<Confirmation>, k: nat): seq<KVCommand>
    requires k <= |confirmed| && (k > 0 ==> |confirmed[k - 1].hash| == k)
  {
    seq(k, i requires 0 <= i < k => confirmed[k - 1].hash[i].kv)
  }

  /** The follower's log starts with the log that has been confirmed to it. */
  predicate LogMatches(s: State, confirmed: seq<Confirmation>) {
    s.received <= |confirmed| && (s.received > 0 ==> confirmed[s.received - 1].hash <= DigestOf(s.server.log))
  }

  /** A replay may find the log too short, but not one that differs from what was confirmed. */
  predicate Enabled(s: State, step: Step, confirmed: seq<Confirmation>) {
    && !s.panicked
    && match step
       case Append(_) => true
       case Confirm => s.received < |confirmed|
       case Replay => CanReplay(s.server) ==> LogMatches(s, confirmed)
  }

  function Perform(s: State, step: Step, confirmed: seq<Confirmation>): State
    requires Enabled(s, step, confirmed)
  {
    match step
    case Append(command) => s.(server := s.server.(log := s.server.log + [command]))
    case Confirm =>
      var c := confirmed[s.received];
      State(Confirmed(s.server, false, c.command, c.lastIdx), s.received + 1, false)
    case Replay => if CanReplay(s.server) then s.(server := Replayed(s.server)) else s.(panicked := true)
  }

  function After(s: State, steps: seq<Step>, confirmed: seq<Confirmation>): Option<State> {
    if |steps| == 0 then Some(s)
    else
      var step := steps[|steps| - 1];
      match After(s, steps[..|steps| - 1], confirmed)
      case None => None
      case Some(m) => if Enabled(m, step, confirmed) then Some(Perform(m, step, confirmed)) else None
  }

  function Start(id: nat): State {
    State(Server(id, map[], [], 0, 0), 0, false)
  }

  ghost predicate Inv(s: State, confirmed: seq<Confirmation>)
    requires Order.Consecutive(confirmed)
  {
    && s.received <= |confirmed|
    && s.server.decidedIdx == s.received
    && s.server.currentDecidedIdx <= s.received
    && (s.received > 0 ==> Order.Follows(confirmed, s.received - 1))
    && s.server.db == ExecuteAll(map[], ConfirmedCommands(confirmed, s.received))
  }

  lemma {:induction false} ConfirmKeepsInv(s: State, confirmed: seq<Confirmation>)
    requires Order.Consecutive(confirmed) && Inv(s, confirmed) && Enabled(s, Confirm, confirmed)
    ensures Inv(Perform(s, Confirm, confirmed), confirmed)
  {
    var k := s.received;
    assert Order.Follows(confirmed, k);
    assert ConfirmedCommands(confirmed, k + 1)[..k] == ConfirmedCommands(confirmed, k);
    assert ConfirmedCommands(confirmed, k + 1)[k] == confirmed[k].command.kv;
  }

  /** A log that starts with the confirmed one has the confirmed commands in every stretch of it. */
  lemma {:induction false} MatchingStretch(s: State, confirmed: seq<Confirmation>, from: nat)
    requires Order.Consecutive(confirmed) && LogMatches(s, confirmed) && from <= s.received
    requires s.received > 0 ==> Order.Follows(confirmed, s.received - 1)
    ensures s.received <= |s.server.log|
    ensures KvOf(s.server.log[from..s.received]) == ConfirmedCommands(confirmed, s.received)[from..]
  {
    var k, log := s.received, s.server.log;
    forall i | 0 <= i < k - from ensures KvOf(log[from..k])[i] == ConfirmedCommands(confirmed, k)[from..][i] {
      assert confirmed[k - 1].hash[from + i] == DigestOf(log)[from + i];
    }
  }

  lemma {:induction false} ReplayKeepsInv(s: State, confirmed: seq<Confirmation>)
    requires Order.Consecutive(confirmed) && Inv(s, confirmed) && Enabled(s, Replay, confirmed)
    ensures Inv(Perform(s, Replay, confirmed), confirmed)
  {
    var k, from := s.received, s.server.currentDecidedIdx;
    if from < k && CanReplay(s.server) {
      MatchingStretch(s, confirmed, from);
      ReplayIsIdempotent(map[], ConfirmedCommands(confirmed, k), from);
    }
  }

  lemma {:induction false} RunKeepsInv(id: nat, steps: seq<Step>, confirmed: seq<Confirmation>)
    requires Order.Consecutive(confirmed)
    ensures var s := After(Start(id), steps, confirmed);
            s.Some? ==> Inv(s.value, confirmed)
  {
    if |steps| > 0 {
      var before, step := steps[..|steps| - 1], steps[|steps| - 1];
      RunKeepsInv(id, before, confirmed);
      var m := After(Start(id), before, confirmed);
      if m.Some? && Enabled(m.value, step, confirmed) {
        match step
        case Append(_) =>
        case Confirm => ConfirmKeepsInv(m.value, confirmed);
        case Replay => ReplayKeepsInv(m.value, confirmed);
      }
    }
  }

  /**
   * However confirmations and replays interleave, a follower whose log matches has in its database
   * exactly the decided log, executed once and in order.
   */
  lemma {:induction false} FollowerState(id: nat, steps: seq<Step>, confirmed: seq<Confirmation>, s: State)
    requires Order.Consecutive(confirmed)
    requires After(Start(id), steps, confirmed) == Some(s) && LogMatches(s, confirmed)
    ensures s.server.decidedIdx == s.received <= |s.server.log|
    ensures s.server.db == ExecuteAll(map[], KvOf(s.server.log[..s.server.decidedIdx]))
  {
    RunKeepsInv(id, steps, confirmed);
    MatchingStretch(s, confirmed, 0);
    assert s.server.log[0..s.received] == s.server.log[..s.received];
  }

  /**
   * From acknowledgements to databases: whatever the servers append and however the proxy's handling
   * interleaves, a follower sent the proxy's confirmations in order holds the database of the
   * confirmed log, even if its own log is still shorter and even when a replay of that log panics.
   */
  lemma {:induction false} ConfirmedLogIsServed(cluster: Order.Cluster, id: nat, steps: seq<Step>, s: State)
    requires Order.Reachable(cluster) && cluster.n > 2 * cluster.f
    requires After(Start(id), steps, cluster.confirmed) == Some(s)
    ensures s.received <= |cluster.confirmed| && s.server.decidedIdx == s.received
    ensures s.received > 0 ==> |cluster.confirmed[s.received - 1].hash| == s.received
    ensures s.server.db == ExecuteAll(map[], ConfirmedCommands(cluster.confirmed, s.received))
  {
    Order.ConfirmedInOrder(cluster);
    RunKeepsInv(id, steps, cluster.confirmed);
  }

  // Replays of a log that is still short.

  /** In every run, a replay panics exactly if confirmations beyond the log have come since the last one. */
  lemma {:induction false} ReplayPanicsIff(id: nat, steps: seq<Step>, confirmed: seq<Confirmation>, s: State)
    requires Order.Consecutive(confirmed)
    requires After(Start(id), steps, confirmed) == Some(s) && Enabled(s, Replay, confirmed)
    ensures Perform(s, Replay, confirmed).panicked
            <==> s.server.currentDecidedIdx < s.received && |s.server.log| < s.received
  {
    RunKeepsInv(id, steps, confirmed);
  }

  /** After a replay everything confirmed so far has been replayed, and another one has nothing left to do. */
  lemma {:induction false} ReplayCatchesUp(id: nat, steps: seq<Step>, confirmed: seq<Confirmation>, s: State)
    requires Order.Consecutive(confirmed)
    requires After(Start(id), steps, confirmed) == Some(s) && Enabled(s, Replay, confirmed) && CanReplay(s.server)
    ensures var s' := Perform(s, Replay, confirmed);
            && s'.server.currentDecidedIdx == s'.server.decidedIdx == s'.received == s.received
            && CanReplay(s'.server) && Replayed(s'.server) == s'.server
  {
    RunKeepsInv(id, steps, confirmed);
  }

  /**
   * It does happen: whenever faults are tolerated, the others can have a command confirmed before the
   * last server has appended it. A follower there then panics at its first replay.
   */
  lemma {:induction false} ShortLogPanics(n: nat, f: nat, command: Command) returns (cluster: Order.Cluster)
    requires n > 2 * f && f > 0
    ensures Order.Reachable(cluster) && cluster.n == n && cluster.f == f
    ensures |cluster.logs| == n && cluster.logs[n - 1] == [] && |cluster.confirmed| > 0
    ensures var s := After(Start(n - 1), [Confirm, Replay], cluster.confirmed);
            s.Some? && s.value.panicked && s.value.server.log == cluster.logs[n - 1]
  {
    var q := n - f;
    cluster := Delivery.QuorumRun(n, f, command, 2 * q);
    Delivery.QuorumConfirms(cluster, n, f, command);
    Order.ConfirmedInOrder(cluster);
    FirstReplayPanics(n - 1, cluster.confirmed);
  }

  lemma {:induction false} FirstReplayPanics(id: nat, confirmed: seq<Confirmation>)
    requires Order.Consecutive(confirmed) && |confirmed| > 0
    ensures var s := After(Start(id), [Confirm, Replay], confirmed);
            s.Some? && s.value.panicked && s.value.server.log == []
  {
    assert Order.Follows(confirmed, 0);
    assert [Confirm, Replay][..1] == [Confirm] && [Confirm][..0] == [];
    assert After(Start(id), [Confirm], confirmed) == Some(Perform(Start(id), Confirm, confirmed));
  }

  // What a replay answers.

  /** The answer at position `j` of `log` when the log is executed once, in order. */
  function AnswerAt(log: seq<Command>, j: nat): Response
    requires j < |log|
  {
    Respond(ExecuteAll(map[], KvOf(log[..j])), log[j].kv)
  }

  /** The answer at position `j` when the log from `from` on is replayed over the database of all of it. */
  function ReplayedAnswer(log: seq<Command>, from: nat, j: nat): Response
    requires from <= j < |log|
  {
    Respond(ExecuteAll(ExecuteAll(map[], KvOf(log)), KvOf(log[from..j])), log[j].kv)
  }

  /** Nothing that the replay has not executed again yet has overwritten what the read at `j` should find. */
  predicate ReadsUnchanged(log: seq<Command>, from: nat, j: nat, key: string)
    requires from <= j < |log|
  {
    || LastWrite(KvOf(log[from..j]), key).Some?
    || LastWrite(KvOf(log), key).GetOr(None) == LastWrite(KvOf(log[..j]), key).GetOr(None)
  }

  lemma {:induction false} ReplayedReadIff(log: seq<Command>, from: nat, j: nat)
    requires from <= j < |log|
    ensures ReplayedAnswer(log, from, j) == AnswerAt(log, j) <==>
            (log[j].kv.Get? ==> ReadsUnchanged(log, from, j, log[j].kv.key))
  {
    if log[j].kv.Get? {
      var key := log[j].kv.key;
      LastWriteWins(ExecuteAll(map[], KvOf(log)), KvOf(log[from..j]), key);
      LastWriteWins(map[], KvOf(log), key);
      LastWriteWins(map[], KvOf(log[..j]), key);
      assert KvOf(log[..j])[from..] == KvOf(log[from..j]);
      LastWriteOfSuffix(KvOf(log[..j]), from, key);
    }
  }

  /** Command `i`, if this server answers it, is answered alike in both executions. */
  predicate AgreeAt(id: nat, a: Contents, b: Contents, commands: seq<Command>, i: nat)
    requires i < |commands|
  {
    commands[i].coordinatorId == id ==>
      Respond(ExecuteAll(a, KvOf(commands[..i])), commands[i].kv)
      == Respond(ExecuteAll(b, KvOf(commands[..i])), commands[i].kv)
  }

  lemma {:induction false} AgreeAtPrefix(id: nat, a: Contents, b: Contents, commands: seq<Command>, k: nat, i: nat)
    requires i < k <= |commands|
    ensures AgreeAt(id, a, b, commands[..k], i) <==> AgreeAt(id, a, b, commands, i)
  {
    assert commands[..k][..i] == commands[..i];
  }

  lemma {:induction false} SnocEqual<T>(x: seq<T>, y: seq<T>, a: T, b: T)
    requires |x| == |y|
    ensures x + [a] == y + [b] <==> x == y && a == b
  {
    assert (x + [a])[..|x|] == x && (y + [b])[..|y|] == y;
    assert (x + [a])[|x|] == a && (y + [b])[|y|] == b;
  }

  /** Two executions of the same commands answer alike if and only if they do at every command. */
  lemma {:induction false} AnswersAgreeIff(id: nat, a: Contents, b: Contents, commands: seq<Command>)
    ensures |Answers(id, a, commands)| == |Answers(id, b, commands)|
    ensures Answers(id, a, commands) == Answers(id, b, commands) <==>
            forall i :: 0 <= i < |commands| ==> AgreeAt(id, a, b, commands, i)
  {
    if |commands| > 0 {
      var k := |commands| - 1;
      var last := commands[k];
      AnswersAgreeIff(id, a, b, commands[..k]);
      forall i | 0 <= i < k ensures AgreeAt(id, a, b, commands[..k], i) <==> AgreeAt(id, a, b, commands, i) {
        AgreeAtPrefix(id, a, b, commands, k, i);
      }
      if last.coordinatorId == id {
        var ra := Respond(ExecuteAll(a, KvOf(commands[..k])), last.kv);
        var rb := Respond(ExecuteAll(b, KvOf(commands[..k])), last.kv);
        SnocEqual(Answers(id, a, commands[..k]), Answers(id, b, commands[..k]),
                  (last.clientId, last.id, ra), (last.clientId, last.id, rb));
        assert AgreeAt(id, a, b, commands, k) <==> ra == rb;
      } else {
        assert AgreeAt(id, a, b, commands, k);
      }
    }
  }

  /** The answers of a replay of `log` from `from` on, and those of executing it once. */
  function ReplayAnswers(id: nat, log: seq<Command>, from: nat): seq<Answer>
    requires from <= |log|
  {
    Answers(id, ExecuteAll(map[], KvOf(log)), log[from..])
  }

  function AnswersInOrder(id: nat, log: seq<Command>, from: nat): seq<Answer>
    requires from <= |log|
  {
    Answers(id, ExecuteAll(map[], KvOf(log[..from])), log[from..])
  }

  /** Position `j` of the log is executed once over what the log up to there leaves. */
  lemma {:induction false} AnswerSplit(log: seq<Command>, from: nat, j: nat)
    requires from <= j < |log|
    ensures log[from..][..j - from] == log[from..j]
    ensures ExecuteAll(ExecuteAll(map[], KvOf(log[..from])), KvOf(log[from..j])) == ExecuteAll(map[], KvOf(log[..j]))
  {
    ExecuteAllSplit(map[], KvOf(log[..j]), from);
    assert KvOf(log[..j])[..from] == KvOf(log[..from]) && KvOf(log[..j])[from..] == KvOf(log[from..j]);
  }

  /**
   * A replay tells clients what they would have been told in order if and only if no read that this
   * server answers has been overwritten since, except by what the replay has already executed again.
   */
  lemma {:induction false} ReplayAnswersIff(id: nat, log: seq<Command>, from: nat)
    requires from <= |log|
    ensures ReplayAnswers(id, log, from) == AnswersInOrder(id, log, from) <==>
            forall j | from <= j < |log| && log[j].coordinatorId == id && log[j].kv.Get? ::
              ReadsUnchanged(log, from, j, log[j].kv.key)
  {
    var a, b := ExecuteAll(map[], KvOf(log)), ExecuteAll(map[], KvOf(log[..from]));
    AnswersAgreeIff(id, a, b, log[from..]);
    forall i | 0 <= i < |log| - from
      ensures AgreeAt(id, a, b, log[from..], i) <==>
              (log[from + i].coordinatorId == id && log[from + i].kv.Get? ==>
                 ReadsUnchanged(log, from, from + i, log[from + i].kv.key))
    {
      AnswerSplit(log, from, from + i);
      ReplayedReadIff(log, from, from + i);
    }
    if forall i | 0 <= i < |log| - from :: AgreeAt(id, a, b, log[from..], i) {
      forall j | from <= j < |log| && log[j].coordinatorId == id && log[j].kv.Get?
        ensures ReadsUnchanged(log, from, j, log[j].kv.key)
      {
        assert AgreeAt(id, a, b, log[from..], j - from);
      }
    }
  }

  /** Every replay of every run: what it answers, and when that is what the decided log says. */
  lemma {:induction false} RunReplayAnswersIff(id: nat, steps: seq<Step>, confirmed: seq<Confirmation>, s: State)
    requires Order.Consecutive(confirmed)
    requires After(Start(id), steps, confirmed) == Some(s) && LogMatches(s, confirmed)
    ensures s.server.currentDecidedIdx <= s.server.decidedIdx <= |s.server.log|
    ensures var (from, k) := (s.server.currentDecidedIdx, s.server.decidedIdx);
            var log := s.server.log[..k];
            && Answers(id, s.server.db, s.server.log[from..k]) == ReplayAnswers(id, log, from)
            && (ReplayAnswers(id, log, from) == AnswersInOrder(id, log, from) <==>
                forall j | from <= j < k && log[j].coordinatorId == id && log[j].kv.Get? ::
                  ReadsUnchanged(log, from, j, log[j].kv.key))
  {
    RunKeepsInv(id, steps, confirmed);
    FollowerState(id, steps, confirmed, s);
    var (from, k) := (s.server.currentDecidedIdx, s.server.decidedIdx);
    assert s.server.log[..k][from..] == s.server.log[from..k];
    ReplayAnswersIff(id, s.server.log[..k], from);
  }

  /** A read followed by a write of the same key is answered with the written value. */
  lemma {:induction false} ReplayReadsLaterWrite(read: Command, write: Command, key: string, value: string)
    requires read.kv == Get(key) && write.kv == Put(key, value)
    ensures AnswerAt([read, write], 0) == Some(None)
    ensures ReplayedAnswer([read, write], 0, 0) == Some(Some(value))
    ensures ReplayAnswers(read.coordinatorId, [read, write], 0) != AnswersInOrder(read.coordinatorId, [read, write], 0)
  {
    var log := [read, write];
    assert KvOf(log) == [Get(key), Put(key, value)] && KvOf(log)[..1] == [Get(key)];
    assert LastWrite(KvOf(log), key) == Some(Some(value));
    LastWriteWins(map[], KvOf(log), key);
    assert KvOf(log[0..0]) == [] && KvOf(log[..0]) == [];
    ReplayAnswersIff(read.coordinatorId, log, 0);
    assert !ReadsUnchanged(log, 0, 0, key);
  }

  /** It happens when both are confirmed before the first replay. */
  lemma {:induction false} ReplayReadsLaterWriteRun(id: nat, read: Command, write: Command,
                                                    confirmed: seq<Confirmation>)
    requires Order.Consecutive(confirmed) && |confirmed| >= 2 && confirmed[1].hash == DigestOf([read, write])
    ensures var s := After(Start(id), [Append(read), Append(write), Confirm, Confirm], confirmed);
            && s.Some? && LogMatches(s.value, confirmed)
            && s.value.server.log == [read, write]
            && s.value.server.currentDecidedIdx == 0 && s.value.server.decidedIdx == 2
  {
    assert Order.Follows(confirmed, 0) && Order.Follows(confirmed, 1);
    var steps := [Append(read), Append(write), Confirm, Confirm];
    assert steps[..3] == [Append(read), Append(write), Confirm] && steps[..3][..2] == [Append(read), Append(write)];
    assert steps[..2] == [Append(read), Append(write)] && steps[..2][..1] == [Append(read)] && steps[..1][..0] == [];
    var s0 := Start(id);
    assert After(s0, steps[..1], confirmed) == Some(Perform(s0, steps[0], confirmed));
    var s1 := After(s0, steps[..1], confirmed).value;
    assert After(s0, steps[..2], confirmed) == Some(Perform(s1, steps[1], confirmed));
    var s2 := After(s0, steps[..2], confirmed).value;
    assert After(s0, steps[..3], confirmed) == Some(Perform(s2, steps[2], confirmed));
    assert s2.server.log == [read, write];
  }

  /** Each command that this server coordinates is answered in place, to its client, under its number. */
  lemma {:induction false} AnswersInPlace(id: nat, db: Contents, commands: seq<Command>, i: nat)
    requires i < |commands|
    ensures var (answers, at) := (Answers(id, db, commands), |Answers(id, db, commands[..i])|);
            commands[i].coordinatorId == id ==>
              && at < |answers|
              && answers[at] == (commands[i].clientId, commands[i].id,
                                 Respond(ExecuteAll(db, KvOf(commands[..i])), commands[i].kv))
    ensures |Answers(id, db, commands)| <= |commands|
    decreases |commands|
  {
    var last := |commands| - 1;
    if i < last {
      AnswersInPlace(id, db, commands[..last], i);
      assert commands[..last][..i] == commands[..i];
    } else if last > 0 {
      AnswersInPlace(id, db, commands[..last], last - 1);
    }
  }

  /** The positions of the commands that server `id` coordinates. */
  function CoordinatedBy(id: nat, commands: seq<Command>): set<nat> {
    set i: nat | i < |commands| && commands[i].coordinatorId == id
  }

  lemma {:induction false} CoordinatedNext(id: nat, commands: seq<Command>)
    requires |commands| > 0
    ensures var last := |commands| - 1;
            |CoordinatedBy(id, commands)| ==
            |CoordinatedBy(id, commands[..last])| + if commands[last].coordinatorId == id then 1 else 0
  {
    var last := |commands| - 1;
    assert CoordinatedBy(id, commands) ==
           CoordinatedBy(id, commands[..last]) + if commands[last].coordinatorId == id then {last} else {};
  }

  /** Nobody else is answered. */
  lemma {:induction false} OnlyCoordinatedAnswered(id: nat, db: Contents, commands: seq<Command>)
    ensures |Answers(id, db, commands)| == |CoordinatedBy(id, commands)|
  {
    if |commands| > 0 {
      OnlyCoordinatedAnswered(id, db, commands[..|commands| - 1]);
      CoordinatedNext(id, commands);
    } else {
      assert CoordinatedBy(id, commands) == {};
    }
  }
}
