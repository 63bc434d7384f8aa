/** The messages of the fast path and the proxy's handling of one acknowledgement. */
module FastPath {
  import opened Wrappers
  import opened KvStore

  /** The part of a command that the history hash reads. */
  datatype Hashed = Hashed(id: nat, kv: KVCommand)

  /** A history hash without collisions, represented by what was hashed. */
  type Digest = seq<Hashed>

  function DigestOf(log: seq<Command>): (d: Digest)
    ensures |d| == |log|
  {
    seq(|log|, i requires 0 <= i < |log| => Hashed(log[i].id, log[i].kv))
  }

  /** Whether the sender speculated as the leader and, if so, the response it computed. */
  type Speculation = Option<Response>

  datatype Ack = Ack(from: nat, command: Command, hash: Digest, speculation: Speculation, lastIdx: nat)

  datatype Entry = Entry(counter: nat, speculation: Speculation)

  type Table = map<Digest, Entry>

  datatype ProxyCommand = PutEntry(hash: Digest, entry: Entry) | DeleteEntry(hash: Digest) | GetEntry(hash: Digest)

  datatype Confirmation = Confirmation(command: Command, hash: Digest, lastIdx: nat)

  /** The entry that counts `ack`: the first leader speculation is kept. */
  function Counted(table: Table, ack: Ack): Entry {
    if ack.hash in table then
      var Entry(counter, speculation) := table[ack.hash];
      Entry(counter + 1, if speculation.Some? then speculation else ack.speculation)
    else Entry(1, ack.speculation)
  }

  predicate Confirms(quorum: nat, entry: Entry) {
    entry.counter >= quorum && entry.speculation.Some?
  }

  function AfterAck(quorum: nat, table: Table, ack: Ack): Table {
    var entry := Counted(table, ack);
    if Confirms(quorum, entry) then table - {ack.hash} else table[ack.hash := entry]
  }

  // Acknowledgements handled one after the other.

  function TableAfter(quorum: nat, table: Table, acks: seq<Ack>): Table {
    if |acks| == 0 then table
    else AfterAck(quorum, TableAfter(quorum, table, acks[..|acks| - 1]), acks[|acks| - 1])
  }

  /** The acknowledgements among `acks` that confirm their hash. */
  function Completing(quorum: nat, table: Table, acks: seq<Ack>): seq<Ack> {
    if |acks| == 0 then []
    else
      var before, last := acks[..|acks| - 1], acks[|acks| - 1];
      Completing(quorum, table, before) +
      if Confirms(quorum, Counted(TableAfter(quorum, table, before), last)) then [last] else []
  }

  /** What a server is sent for each of `acks`: the command and its index in the log. */
  function Messages(acks: seq<Ack>): (messages: seq<(Command, nat)>)
    ensures |messages| == |acks|
    ensures forall k :: 0 <= k < |acks| ==> messages[k].0 == acks[k].command && messages[k].1 == acks[k].lastIdx
  {
    seq(|acks|, k requires 0 <= k < |acks| => (acks[k].command, acks[k].lastIdx))
  }

  /** The proxy: one table shared by all connections, a queue per server and the client's queue. */
  class Proxy {
    const quorum: nat
    var db: Table
    var toServers: seq<seq<(Command, nat)>>
    var toClient: seq<Ack>

    constructor (nodes: nat, faultTolerance: nat)
      requires faultTolerance <= nodes
      ensures quorum + faultTolerance == nodes && db == map[]
      ensures |toServers| == nodes && (forall i :: 0 <= i < nodes ==> toServers[i] == []) && toClient == []
    {
      quorum := nodes - faultTolerance;
      db := map[];
      toServers := seq(nodes, _ => []);
      toClient := [];
    }

    method HandleCommand(command: ProxyCommand) returns (found: Option<Option<Entry>>)
      modifies this`db
      ensures db == match command
                    case PutEntry(hash, entry) => old(db)[hash := entry]
                    case DeleteEntry(hash) => old(db) - {hash}
                    case GetEntry(_) => old(db)
      ensures found == if command.GetEntry?
                       then Some(if command.hash in db then Some(db[command.hash]) else None)
                       else None
    {
      match command
      case PutEntry(hash, entry) =>
        db := db[hash := entry];
        found := None;
      case DeleteEntry(hash) =>
        db := map h | h in db && h != hash :: db[h];
        found := None;
      case GetEntry(hash) =>
        found := Some(if hash in db then Some(db[hash]) else None);
    }

    /**
     * The first `deliverable` sends succeed: to the servers in turn, then to the client. A send that fails
     * ends the handler before it deletes the entry.
     */
    method HandleAck(ack: Ack, deliverable: nat) returns (failed: bool)
      modifies this
      ensures failed <==> Confirms(quorum, Counted(old(db), ack)) && deliverable <= |old(toServers)|
      ensures db == if failed then old(db)[ack.hash := Counted(old(db), ack)] else AfterAck(quorum, old(db), ack)
      ensures |toServers| == |old(toServers)|
      ensures forall i :: 0 <= i < |toServers| ==>
                toServers[i] == old(toServers)[i] +
                                if Confirms(quorum, Counted(old(db), ack)) && i < deliverable
                                then [(ack.command, ack.lastIdx)]
                                else []
      ensures toClient == old(toClient) + if Confirms(quorum, Counted(old(db), ack)) && !failed then [ack] else []
    {
      failed := false;
      var found := HandleCommand(GetEntry(ack.hash));
      var newCounter, newSpeculation := 1, ack.speculation;
      if found.value.Some? {
        newCounter := found.value.value.counter + 1;
        if found.value.value.speculation.Some? {
          newSpeculation := found.value.value.speculation;
        }
      }
      var _ := HandleCommand(PutEntry(ack.hash, Entry(newCounter, newSpeculation)));
      if newCounter >= quorum && newSpeculation.Some? {
        var i := 0;
        while i < |toServers|
          invariant i <= |toServers| == |old(toServers)| && i <= deliverable
          invariant forall j :: 0 <= j < |toServers| ==>
                      toServers[j] == old(toServers)[j] + if j < i then [(ack.command, ack.lastIdx)] else []
          invariant toClient == old(toClient) && db == old(db)[ack.hash := Entry(newCounter, newSpeculation)]
        {
          if i == deliverable {
            return true;
          }
          toServers := toServers[i := toServers[i] + [(ack.command, ack.lastIdx)]];
          i := i + 1;
        }
        if i == deliverable {
          return true;
        }
        toClient := toClient + [ack];
        var _ := HandleCommand(DeleteEntry(ack.hash));
      }
    }

    /** The handling loop while every send succeeds. */
    method HandleAcks(acks: seq<Ack>)
      modifies this
      ensures db == TableAfter(quorum, old(db), acks)
      ensures |toServers| == |old(toServers)|
      ensures forall i :: 0 <= i < |toServers| ==>
                toServers[i] == old(toServers)[i] + Messages(Completing(quorum, old(db), acks))
      ensures toClient == old(toClient) + Completing(quorum, old(db), acks)
    {
      var k := 0;
      while k < |acks|
        invariant 0 <= k <= |acks| && |toServers| == |old(toServers)|
        invariant db == TableAfter(quorum, old(db), acks[..k])
        invariant forall i :: 0 <= i < |toServers| ==>
                    toServers[i] == old(toServers)[i] + Messages(Completing(quorum, old(db), acks[..k]))
        invariant toClient == old(toClient) + Completing(quorum, old(db), acks[..k])
      {
        assert acks[..k + 1][..k] == acks[..k];
        var _ := HandleAck(acks[k], |toServers| + 1);
        k := k + 1;
      }
      assert acks[..k] == acks;
    }
  }
}
