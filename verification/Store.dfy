/** Persistence: the two-cell store, and the transactional three-table store that must behave like it. */
module Store {
  import opened Ids
  import opened State

  /** What any store holds, as its callers see it. */
  datatype Disk = Disk(checkpoint: Option<Checkpoint>, hashes: map<string, string>)

  const EMPTY_DISK := Disk(None, map[])

  class InMemoryStateStore {
    var checkpoint: Option<Checkpoint>
    var hashes: map<string, string>

    function View(): Disk
      reads this
    {
      Disk(checkpoint, hashes)
    }

    constructor ()
      ensures View() == EMPTY_DISK
    {
      checkpoint, hashes := None, map[];
    }

    method SaveCheckpoint(cp: Checkpoint)
      modifies this
      ensures View() == old(View()).(checkpoint := Some(cp))
    {
      checkpoint := Some(cp);
    }

    method LoadCheckpoint() returns (r: Option<Checkpoint>)
      ensures r == View().checkpoint
    {
      r := checkpoint;
    }

    method LoadPreviousHashes() returns (r: map<string, string>)
      ensures r == View().hashes
    {
      r := hashes;
    }

    method SaveCompletedHashes(runId: string, newHashes: map<string, string>)
      modifies this
      ensures View() == old(View()).(hashes := newHashes)
    {
      hashes := newHashes;
    }
  }

  // -- The transactional store ---------------------------------------------------------

  type Bytes = seq<bv8>

  /** The JSON codec: a parameter that is only assumed to round-trip. */
  datatype Codec = Codec(encode: Checkpoint -> Bytes, decode: Bytes -> Option<Checkpoint>)

  ghost predicate RoundTrips(codec: Codec) {
    forall cp :: codec.decode(codec.encode(cp)) == Some(cp)
  }

  /** The three tables; a table exists once a committed transaction has opened it. */
  datatype Tables = Tables(
    checkpoints: Option<map<string, Bytes>>,
    hashes: Option<map<string, string>>,
    metadata: Option<map<string, string>>)

  const EMPTY_TABLES := Tables(None, None, None)
  const KEY_LATEST_RUN_ID := "latest_run_id"
  const KEY_LATEST_COMPLETED_RUN_ID := "latest_completed_run_id"

  datatype StateError = StoreError(message: string) | SerializationError(message: string)

  function OpenOr<V>(table: Option<map<string, V>>): map<string, V> {
    if table.Some? then table.value else map[]
  }

  /** The tables once a whole checkpoint transaction has committed. */
  function WithCheckpoint(t: Tables, codec: Codec, cp: Checkpoint): Tables {
    t.(checkpoints := Some(OpenOr(t.checkpoints)[cp.state.runId := codec.encode(cp)]),
       metadata := Some(OpenOr(t.metadata)[KEY_LATEST_RUN_ID := cp.state.runId]))
  }

  /** The tables once a whole hash transaction has committed. */
  function WithHashes(t: Tables, runId: string, hashes: map<string, string>): Tables {
    t.(hashes := Some(hashes), metadata := Some(OpenOr(t.metadata)[KEY_LATEST_COMPLETED_RUN_ID := runId]))
  }

  function ReadCheckpoint(t: Tables, codec: Codec): Result<Option<Checkpoint>, StateError> {
    if t.metadata.None? || KEY_LATEST_RUN_ID !in t.metadata.value then Ok(None)
    else if t.checkpoints.None? then Err(StoreError("failed to open checkpoints table"))
    else
      var runId := t.metadata.value[KEY_LATEST_RUN_ID];
      if runId !in t.checkpoints.value then Ok(None)
      else
        var cp := codec.decode(t.checkpoints.value[runId]);
        if cp.None? then Err(SerializationError("failed to deserialize checkpoint")) else Ok(cp)
  }

  function ReadHashes(t: Tables): map<string, string> {
    if t.metadata.None? || KEY_LATEST_COMPLETED_RUN_ID !in t.metadata.value || t.hashes.None? then map[]
    else t.hashes.value
  }

  /** `latest_run_id` names a stored checkpoint that decodes, and is set once any checkpoint is stored. */
  ghost predicate Consistent(t: Tables, codec: Codec) {
    && (t.metadata.Some? && KEY_LATEST_RUN_ID in t.metadata.value ==>
          && t.checkpoints.Some? && t.metadata.value[KEY_LATEST_RUN_ID] in t.checkpoints.value
          && codec.decode(t.checkpoints.value[t.metadata.value[KEY_LATEST_RUN_ID]]).Some?)
    && (t.hashes.Some? ==> t.metadata.Some? && KEY_LATEST_COMPLETED_RUN_ID in t.metadata.value)
  }

  /** The store as its callers see it. */
  function ViewOf(t: Tables, codec: Codec): Disk {
    var r := ReadCheckpoint(t, codec);
    Disk(if r.Ok? then r.value else None, ReadHashes(t))
  }

  /**
   * A transaction works on a private copy and publishes it at commit; a crash at any earlier step publishes nothing.
   */
  class RedbStateStore {
    const codec: Codec
    var committed: Tables

    ghost predicate Valid()
      reads this
    {
      RoundTrips(codec) && Consistent(committed, codec)
    }

    function View(): Disk
      reads this
    {
      ViewOf(committed, codec)
    }

    constructor (codec: Codec)
      requires RoundTrips(codec)
      ensures Valid() && View() == EMPTY_DISK && this.codec == codec && committed == EMPTY_TABLES
    {
      this.codec := codec;
      committed := EMPTY_TABLES;
    }

    /** `crashAt` is the step before which the process dies; from 5 on the transaction commits. */
    method SaveCheckpoint(cp: Checkpoint, crashAt: nat)
      requires Valid()
      modifies this`committed
      ensures Valid()
      ensures committed == if crashAt < 5 then old(committed) else WithCheckpoint(old(committed), codec, cp)
      ensures View() == if crashAt < 5 then old(View()) else old(View()).(checkpoint := Some(cp))
    {
      var bytes := codec.encode(cp);
      var runId := cp.state.runId;
      if crashAt == 0 { return; }
      var txn := committed;
      if crashAt == 1 { return; }
      txn := txn.(checkpoints := Some(OpenOr(txn.checkpoints)[runId := bytes]));
      if crashAt == 2 { return; }
      var meta := OpenOr(txn.metadata);
      if crashAt == 3 { return; }
      txn := txn.(metadata := Some(meta[KEY_LATEST_RUN_ID := runId]));
      if crashAt == 4 { return; }
      committed := txn;
    }

    method LoadCheckpoint() returns (r: Result<Option<Checkpoint>, StateError>)
      requires Valid()
      ensures r == Ok(View().checkpoint)
    {
      if committed.metadata.None? {
        return Ok(None);
      }
      var meta := committed.metadata.value;
      if KEY_LATEST_RUN_ID !in meta {
        return Ok(None);
      }
      if committed.checkpoints.None? {
        return Err(StoreError("failed to open checkpoints table"));
      }
      var runId := meta[KEY_LATEST_RUN_ID];
      if runId !in committed.checkpoints.value {
        return Ok(None);
      }
      var cp := codec.decode(committed.checkpoints.value[runId]);
      if cp.None? {
        return Err(SerializationError("failed to deserialize checkpoint"));
      }
      return Ok(cp);
    }

    /** Accumulates the table entry by entry. */
    method LoadPreviousHashes() returns (r: map<string, string>)
      requires Valid()
      ensures r == View().hashes
    {
      r := map[];
      if || committed.metadata.None? || KEY_LATEST_COMPLETED_RUN_ID !in committed.metadata.value
         || committed.hashes.None?
      {
        return;
      }
      var table := committed.hashes.value;
      var left := table.Keys;
      while left != {}
        invariant left <= table.Keys && r.Keys == table.Keys - left
        invariant forall id :: id in r ==> r[id] == table[id]
      {
        var id :| id in left;
        r := r[id := table[id]];
        left := left - {id};
      }
    }

    /** Drains the old table key by key, then inserts the new entries; `crashAt` counts the table operations. */
    method SaveCompletedHashes(runId: string, hashes: map<string, string>, crashAt: nat) returns (done: bool)
      requires Valid()
      modifies this`committed
      ensures Valid()
      ensures committed == if done then WithHashes(old(committed), runId, hashes) else old(committed)
      ensures View() == if done then old(View()).(hashes := hashes) else old(View())
      ensures |OpenOr(old(committed).hashes)| + |hashes| < crashAt ==> done
    {
      var txn := committed;
      var table, steps, crashed := Drain(OpenOr(txn.hashes), crashAt);
      if crashed { return false; }
      table, steps, crashed := InsertAll(table, hashes, steps, crashAt);
      if crashed || steps == crashAt { return false; }
      txn := txn.(hashes := Some(table), metadata := Some(OpenOr(txn.metadata)[KEY_LATEST_COMPLETED_RUN_ID := runId]));
      HashesKeep(committed, codec, runId, hashes);
      committed := txn;
      return true;
    }
  }

  /** Removes the keys one by one. */
  method Drain(table0: map<string, string>, crashAt: nat)
    returns (table: map<string, string>, steps: nat, crashed: bool)
    ensures !crashed ==> table == map[] && steps == |table0|
    ensures crashed ==> crashAt < |table0|
  {
    table, steps, crashed := table0, 0, false;
    var keys := table.Keys;
    while keys != {}
      invariant keys == table.Keys && steps + |keys| == |table0|
    {
      if steps == crashAt { return table, steps, true; }
      var key :| key in keys;
      table := table - {key};
      keys := keys - {key};
      steps := steps + 1;
    }
  }

  /** Inserts the new entries one by one into the drained table. */
  method InsertAll(table0: map<string, string>, hashes: map<string, string>, steps0: nat, crashAt: nat)
    returns (table: map<string, string>, steps: nat, crashed: bool)
    requires table0 == map[]
    ensures !crashed ==> table == hashes && steps == steps0 + |hashes|
    ensures crashed ==> crashAt < steps0 + |hashes|
  {
    table, steps, crashed := table0, steps0, false;
    var left := hashes.Keys;
    while left != {}
      invariant left <= hashes.Keys && table.Keys == hashes.Keys - left
      invariant forall id :: id in table ==> table[id] == hashes[id]
      invariant steps + |left| == steps0 + |hashes|
    {
      if steps == crashAt { return table, steps, true; }
      var id :| id in left;
      table := table[id := hashes[id]];
      left := left - {id};
      steps := steps + 1;
    }
    assert table == hashes;
  }

  lemma HashesKeep(t: Tables, codec: Codec, runId: string, hashes: map<string, string>)
    requires Consistent(t, codec)
    ensures Consistent(WithHashes(t, runId, hashes), codec)
    ensures ViewOf(WithHashes(t, runId, hashes), codec) == ViewOf(t, codec).(hashes := hashes)
  {
    assert KEY_LATEST_COMPLETED_RUN_ID[7] != KEY_LATEST_RUN_ID[7];
  }

  // -- Refinement over whole histories ------------------------------------------------------

  /** One call; a crash anywhere inside a write loses exactly that write. */
  datatype Op =
    | SaveCheckpointOp(cp: Checkpoint, crashed: bool)
    | SaveHashesOp(runId: string, hashes: map<string, string>, crashed: bool)
    | LoadCheckpointOp
    | LoadHashesOp

  datatype Answer =
    | NoAnswer
    | CheckpointAnswer(r: Result<Option<Checkpoint>, StateError>)
    | HashesAnswer(h: map<string, string>)

  function MemoryStep(d: Disk, op: Op): (Disk, Answer) {
    match op
    case SaveCheckpointOp(cp, crashed) => (if crashed then d else d.(checkpoint := Some(cp)), NoAnswer)
    case SaveHashesOp(_, hashes, crashed) => (if crashed then d else d.(hashes := hashes), NoAnswer)
    case LoadCheckpointOp => (d, CheckpointAnswer(Ok(d.checkpoint)))
    case LoadHashesOp => (d, HashesAnswer(d.hashes))
  }

  function RedbStep(t: Tables, codec: Codec, op: Op): (Tables, Answer) {
    match op
    case SaveCheckpointOp(cp, crashed) => (if crashed then t else WithCheckpoint(t, codec, cp), NoAnswer)
    case SaveHashesOp(runId, hashes, crashed) => (if crashed then t else WithHashes(t, runId, hashes), NoAnswer)
    case LoadCheckpointOp => (t, CheckpointAnswer(ReadCheckpoint(t, codec)))
    case LoadHashesOp => (t, HashesAnswer(ReadHashes(t)))
  }

  function MemoryAnswers(d: Disk, ops: seq<Op>): seq<Answer>
    decreases |ops|
  {
    if ops == [] then []
    else var (d', answer) := MemoryStep(d, ops[0]); [answer] + MemoryAnswers(d', ops[1..])
  }

  function RedbAnswers(t: Tables, codec: Codec, ops: seq<Op>): seq<Answer>
    decreases |ops|
  {
    if ops == [] then []
    else var (t', answer) := RedbStep(t, codec, ops[0]); [answer] + RedbAnswers(t', codec, ops[1..])
  }

  lemma StepRefines(t: Tables, codec: Codec, op: Op)
    requires RoundTrips(codec) && Consistent(t, codec)
    ensures Consistent(RedbStep(t, codec, op).0, codec)
    ensures (ViewOf(RedbStep(t, codec, op).0, codec), RedbStep(t, codec, op).1) == MemoryStep(ViewOf(t, codec), op)
  {
    assert KEY_LATEST_COMPLETED_RUN_ID[7] != KEY_LATEST_RUN_ID[7];
    if op.SaveHashesOp? {
      HashesKeep(t, codec, op.runId, op.hashes);
    }
  }

  lemma {:induction false} StoresAgreeFrom(t: Tables, codec: Codec, ops: seq<Op>)
    requires RoundTrips(codec) && Consistent(t, codec)
    ensures RedbAnswers(t, codec, ops) == MemoryAnswers(ViewOf(t, codec), ops)
    decreases |ops|
  {
    if ops != [] {
      StepRefines(t, codec, ops[0]);
      StoresAgreeFrom(RedbStep(t, codec, ops[0]).0, codec, ops[1..]);
    }
  }

  /** For every history of calls and crashes, the two stores answer every load alike. */
  lemma StoresAgree(codec: Codec, ops: seq<Op>)
    requires RoundTrips(codec)
    ensures RedbAnswers(EMPTY_TABLES, codec, ops) == MemoryAnswers(EMPTY_DISK, ops)
  {
    StoresAgreeFrom(EMPTY_TABLES, codec, ops);
  }

  function TablesAfter(t: Tables, codec: Codec, ops: seq<Op>): Tables
    decreases |ops|
  {
    if ops == [] then t else TablesAfter(RedbStep(t, codec, ops[0]).0, codec, ops[1..])
  }

  /** In every history `latest_run_id` points at a stored, readable checkpoint. */
  lemma {:induction false} LatestIsStored(t: Tables, codec: Codec, ops: seq<Op>)
    requires RoundTrips(codec) && Consistent(t, codec)
    ensures Consistent(TablesAfter(t, codec, ops), codec)
    decreases |ops|
  {
    if ops != [] {
      StepRefines(t, codec, ops[0]);
      LatestIsStored(RedbStep(t, codec, ops[0]).0, codec, ops[1..]);
    }
  }
}
