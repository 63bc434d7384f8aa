/** Key-value commands and the database that executes them on a server. */
module KvStore {
  import opened Wrappers

  datatype KVCommand = Put(key: string, value: string) | Delete(key: string) | Get(key: string)

  /** A command request; the history hash reads only `id` and `kv`. */
  datatype Command = Command(clientId: nat, coordinatorId: nat, id: nat, privateId: nat, deadline: nat, kv: KVCommand)

  /** None for a write, the value found (if any) for a read. */
  type Response = Option<Option<string>>

  type Contents = map<string, string>

  function Lookup(db: Contents, key: string): Option<string> {
    if key in db then Some(db[key]) else None
  }

  function Execute(db: Contents, c: KVCommand): Contents {
    match c
    case Put(key, value) => db[key := value]
    case Delete(key) => db - {key}
    case Get(_) => db
  }

  function Respond(db: Contents, c: KVCommand): Response {
    match c
    case Put(_, _) => None
    case Delete(_) => None
    case Get(key) => Some(Lookup(db, key))
  }

  function ExecuteAll(db: Contents, cs: seq<KVCommand>): Contents {
    if |cs| == 0 then db else Execute(ExecuteAll(db, cs[..|cs| - 1]), cs[|cs| - 1])
  }

  /** What the last write to `key` in `cs` left there; None if nothing in `cs` writes it. */
  function LastWrite(cs: seq<KVCommand>, key: string): Option<Option<string>> {
    if |cs| == 0 then None
    else match cs[|cs| - 1]
      case Put(k, value) => if k == key then Some(Some(value)) else LastWrite(cs[..|cs| - 1], key)
      case Delete(k) => if k == key then Some(None) else LastWrite(cs[..|cs| - 1], key)
      case Get(_) => LastWrite(cs[..|cs| - 1], key)
  }

  /** Executing commands leaves every key at its last write, or as it was. */
  lemma {:induction false} LastWriteWins(db: Contents, cs: seq<KVCommand>, key: string)
    ensures Lookup(ExecuteAll(db, cs), key) == LastWrite(cs, key).GetOr(Lookup(db, key))
  {
    if |cs| > 0 {
      LastWriteWins(db, cs[..|cs| - 1], key);
    }
  }

  lemma {:induction false} LastWriteOfSuffix(cs: seq<KVCommand>, from: nat, key: string)
    requires from <= |cs|
    ensures LastWrite(cs[from..], key).Some? ==> LastWrite(cs, key) == LastWrite(cs[from..], key)
  {
    if from < |cs| {
      assert cs[from..][..|cs| - from - 1] == cs[..|cs| - 1][from..];
      LastWriteOfSuffix(cs[..|cs| - 1], from, key);
    }
  }

  lemma {:induction false} ExecuteAllSplit(db: Contents, cs: seq<KVCommand>, k: nat)
    requires k <= |cs|
    ensures ExecuteAll(ExecuteAll(db, cs[..k]), cs[k..]) == ExecuteAll(db, cs)
  {
    if k < |cs| {
      var last := |cs| - 1;
      assert cs[..last][..k] == cs[..k];
      assert cs[k..][..last - k] == cs[..last][k..];
      ExecuteAllSplit(db, cs[..last], k);
    } else {
      assert cs[..k] == cs;
    }
  }

  lemma {:induction false} SameLookups(a: Contents, b: Contents)
    requires forall key :: Lookup(a, key) == Lookup(b, key)
    ensures a == b
  {
    forall key ensures (key in a <==> key in b) && (key in a ==> a[key] == b[key]) {
      assert Lookup(a, key) == Lookup(b, key);
    }
  }

  /** Replaying any suffix of commands that were already executed changes nothing. */
  lemma {:induction false} ReplayIsIdempotent(db: Contents, cs: seq<KVCommand>, from: nat)
    requires from <= |cs|
    ensures ExecuteAll(ExecuteAll(db, cs), cs[from..]) == ExecuteAll(db, cs)
  {
    var once := ExecuteAll(db, cs);
    forall key ensures Lookup(ExecuteAll(once, cs[from..]), key) == Lookup(once, key) {
      LastWriteWins(once, cs[from..], key);
      LastWriteWins(db, cs, key);
      LastWriteOfSuffix(cs, from, key);
    }
    SameLookups(ExecuteAll(once, cs[from..]), once);
  }

  function KvOf(commands: seq<Command>): seq<KVCommand> {
    seq(|commands|, i requires 0 <= i < |commands| => commands[i].kv)
  }

  class Database {
    var db: Contents

    constructor ()
      ensures db == map[]
    {
      db := map[];
    }

    method HandleCommand(command: KVCommand) returns (response: Response)
      modifies this
      ensures db == Execute(old(db), command)
      ensures response == Respond(old(db), command)
      ensures command.Get? ==> db == old(db) && response == Some(Lookup(db, command.key))
      ensures command.Put? ==> response == None && Lookup(db, command.key) == Some(command.value)
      ensures command.Delete? ==> response == None && Lookup(db, command.key) == None
      ensures forall key :: key != command.key ==> Lookup(db, key) == Lookup(old(db), key)
    {
      match command
      case Put(key, value) =>
        db := db[key := value];
        response := None;
      case Delete(key) =>
        db := map k | k in db && k != key :: db[k];
        response := None;
      case Get(key) =>
        response := Some(if key in db then Some(db[key]) else None);
    }
  }
}
