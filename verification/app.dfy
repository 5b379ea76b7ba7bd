/** The application glue: the isNew gate in front of the message writer,
    the shard key, the backfill job construction and the per-message
    decision of reconciliation. */
module App {
  import opened Protocol
  import opened Db
  import opened Messages

  // ---------------------------------------------------------------------
  // Shard key

  /** The decimal digit character for d. */
  function DigitChar(d: nat): (c: char)
    requires d < 10
  {
    ('0' as int + d) as char
  }

  predicate IsDecimal(s: string)
  {
    |s| >= 1 && forall i :: 0 <= i < |s| ==> '0' <= s[i] <= '9'
  }

  /** How a number is rendered in a template string: its decimal digits,
      most significant first, without leading zeros. */
  function DecimalString(n: nat): (s: string)
    ensures IsDecimal(s)
    ensures |s| > 1 ==> s[0] != '0'
  {
    if n < 10 then [DigitChar(n)] else DecimalString(n / 10) + [DigitChar(n % 10)]
  }

  /** The number a string of decimal digits denotes. */
  function DecimalValue(s: string): nat
    requires IsDecimal(s)
    decreases |s|
  {
    var last := (s[|s| - 1] as int - '0' as int) as nat;
    if |s| == 1 then last else 10 * DecimalValue(s[..|s| - 1]) + last
  }

  /** Reading back the rendering of n gives n. */
  lemma {:induction false} DecimalRoundTrip(n: nat)
    ensures DecimalValue(DecimalString(n)) == n
  {
    if n >= 10 {
      DecimalRoundTrip(n / 10);
      var s := DecimalString(n);
      assert s[..|s| - 1] == DecimalString(n / 10);
    }
  }

  /** A decimal string whose leading digit is not 0 denotes a positive number. */
  lemma {:induction false} LeadingDigitPositive(s: string)
    requires IsDecimal(s) && s[0] != '0'
    ensures DecimalValue(s) >= 1
    decreases |s|
  {
    if |s| > 1 {
      LeadingDigitPositive(s[..|s| - 1]);
    }
  }

  /** A decimal string without a leading zero is the rendering of the
      number it denotes: there is exactly one such string per number. */
  lemma {:induction false} DecimalRenderingIsUnique(s: string)
    requires IsDecimal(s) && (|s| > 1 ==> s[0] != '0')
    ensures DecimalString(DecimalValue(s)) == s
    decreases |s|
  {
    if |s| > 1 {
      var p := s[..|s| - 1];
      LeadingDigitPositive(p);
      DecimalRenderingIsUnique(p);
      var n := DecimalValue(s);
      assert n / 10 == DecimalValue(p) && n % 10 == s[|s| - 1] as int - '0' as int;
      assert s == p + [s[|s| - 1]];
    }
  }

  /** The key this process's subscriber and consumer use: "all" when the
      hub is not sharded, the shard index in decimal otherwise. */
  function ShardKey(totalShards: int, shardIndex: nat): (key: string)
    ensures key == "all" <==> totalShards == 0
    ensures totalShards != 0 ==> IsDecimal(key) && DecimalValue(key) == shardIndex
    ensures totalShards != 0 ==> (|key| > 1 ==> key[0] != '0')
  {
    if totalShards == 0 then "all"
    else
      DecimalRoundTrip(shardIndex);
      var key := DecimalString(shardIndex);
      assert key != "all" by { assert key[0] != 'a'; }
      key
  }

  /** With sharding on, different shard indices give different keys. */
  lemma ShardKeysAreDistinct(totalShards: int, i: nat, j: nat)
    requires totalShards != 0 && i != j
    ensures ShardKey(totalShards, i) != ShardKey(totalShards, j)
  {
  }

  // ---------------------------------------------------------------------
  // Message merge

  /** handleMessageMerge: a message the hub store already held is a no-op;
      a new one goes through writeMessage exactly once, in its state. The
      store operation and the missed flag only feed the log line. */
  method HandleMessageMerge(message: Message, txn: AppDb, state: MessageState, isNew: bool,
                            conv: TimeConversion, now: Date)
    returns (r: Outcome<WriteError>)
    requires isNew ==> CastHashIsNew(txn.Snapshot(), message, state)
    modifies txn
    ensures !isNew ==> unchanged(txn) && r == Pass
    ensures isNew ==>
              txn.Snapshot() == Write(old(txn.Snapshot()), message, state, conv, now).tables &&
              r == Write(old(txn.Snapshot()), message, state, conv, now).outcome
  {
    if !isNew {
      return Pass;
    }
    var messageWriter := new MessageWriter(txn);
    r := messageWriter.WriteMessage(message, state, conv, now);
  }

  // ---------------------------------------------------------------------
  // Backfill

  const BATCH_SIZE: nat := 10

  /** A reconcile job carries `int`s rather than fids: an explicit
      BACKFILL_FIDS list is passed on as parsed, unchecked, so it may hold
      values that are not fids. */
  datatype Job = Reconcile(fids: seq<int>) | CompletionMarker(startedAt: Date)

  datatype BackfillError = HubFailure(reason: string) | MaxFidUndefined

  /** The job queue the backfill fills. */
  class BackfillQueue {
    var jobs: seq<Job>

    constructor ()
      ensures jobs == []
    {
      jobs := [];
    }

    method Add(job: Job)
      modifies this
      ensures jobs == old(jobs) + [job]
    {
      jobs := jobs + [job];
    }
  }

  /** The largest fid to backfill: the configured MAX_FID when one is set,
      else the first fid the hub lists; undefined and 0 both count as
      missing. */
  function MaxFid(configured: Option<int>, hubFids: seq<Fid>): Option<int>
  {
    var m := if configured.Some? then Some(configured.value)
             else if |hubFids| > 0 then Some(hubFids[0] as int) else None;
    if m.Some? && m.value != 0 then m else None
  }

  /** Math.ceil(maxFid / 10) as an array length: no batch for a maximum
      that is not positive. */
  function NumBatches(maxFid: int): nat
  {
    if maxFid <= 0 then 0 else (maxFid + BATCH_SIZE - 1) / BATCH_SIZE
  }

  /** The first fid of each batch: 1, 11, 21, … */
  function BatchStarts(maxFid: int): seq<int>
  {
    seq(NumBatches(maxFid), i => i * BATCH_SIZE + 1)
  }

  /** The ten consecutive fids from `start`. */
  function Batch(start: int): seq<int>
  {
    seq(BATCH_SIZE, i => start + i)
  }

  /** One reconcile job per batch start. */
  function BatchJobs(starts: seq<int>): seq<Job>
  {
    seq(|starts|, i requires 0 <= i < |starts| => Reconcile(Batch(starts[i])))
  }

  /** The jobs backfillFids enqueues, or the error it throws first. */
  function BackfillPlan(fids: seq<int>, hub: Result<seq<Fid>, string>, configured: Option<int>,
                        startedAt: Date): Result<seq<Job>, BackfillError>
  {
    if |fids| == 0 then
      if hub.Err? then Err(HubFailure(hub.error))
      else
        var maxFid := MaxFid(configured, hub.value);
        if maxFid.None? then Err(MaxFidUndefined)
        else Ok(BatchJobs(BatchStarts(maxFid.value)) + [CompletionMarker(startedAt)])
    else Ok([Reconcile(fids), CompletionMarker(startedAt)])
  }

  /** backfillFids: with no fid list, one reconcile job per batch of ten
      fids up to the maximum fid; with a fid list, one job for that list;
      then the completion marker. On an error nothing is enqueued. */
  method BackfillFids(fids: seq<int>, hub: Result<seq<Fid>, string>, configured: Option<int>,
                      startedAt: Date, queue: BackfillQueue)
    returns (r: Outcome<BackfillError>)
    modifies queue
    ensures BackfillPlan(fids, hub, configured, startedAt).Ok? ==>
              r == Pass && queue.jobs == old(queue.jobs) + BackfillPlan(fids, hub, configured, startedAt).value
    ensures BackfillPlan(fids, hub, configured, startedAt).Err? ==>
              r == Fail(BackfillPlan(fids, hub, configured, startedAt).error) && queue.jobs == old(queue.jobs)
  {
    if |fids| == 0 {
      if hub.Err? {
        return Fail(HubFailure(hub.error));
      }
      var maxFid := MaxFid(configured, hub.value);
      if maxFid.None? {
        return Fail(MaxFidUndefined);
      }
      var starts := BatchStarts(maxFid.value);
      for k := 0 to |starts|
        invariant queue.jobs == old(queue.jobs) + BatchJobs(starts[..k])
      {
        var subset := Batch(starts[k]);
        queue.Add(Reconcile(subset));
        assert BatchJobs(starts[..k + 1]) == BatchJobs(starts[..k]) + [Reconcile(subset)];
      }
      assert starts[..|starts|] == starts;
    } else {
      queue.Add(Reconcile(fids));
    }
    queue.Add(CompletionMarker(startedAt));
    r := Pass;
  }

  /** NumBatches is the ceiling of maxFid / 10 for a positive maximum. */
  lemma NumBatchesIsCeiling(maxFid: int)
    requires maxFid > 0
    ensures BATCH_SIZE * (NumBatches(maxFid) - 1) < maxFid <= BATCH_SIZE * NumBatches(maxFid)
  {
  }

  /** A fid lies in the batch from `start` exactly when it is one of the
      ten fids from `start`. */
  lemma InBatch(start: int, f: int)
    ensures f in Batch(start) <==> start <= f < start + BATCH_SIZE
  {
    if start <= f < start + BATCH_SIZE {
      assert Batch(start)[f - start] == f;
    }
  }

  /** With no fid list and a positive maximum m, the queue receives
      NumBatches(m) reconcile jobs, job i carrying exactly the fids
      10i+1, …, 10i+10 in that order,
      and then the completion marker. */
  lemma BackfillJobsForMaxFid(hubFids: seq<Fid>, configured: Option<int>, startedAt: Date)
    requires MaxFid(configured, hubFids).Some? && MaxFid(configured, hubFids).value > 0
    ensures var m := MaxFid(configured, hubFids).value;
            var plan := BackfillPlan([], Ok(hubFids), configured, startedAt);
            plan.Ok? && |plan.value| == NumBatches(m) + 1 &&
            plan.value[NumBatches(m)] == CompletionMarker(startedAt) &&
            forall i :: 0 <= i < NumBatches(m) ==>
              plan.value[i].Reconcile? &&
              plan.value[i] == Reconcile(seq(BATCH_SIZE, j => BATCH_SIZE * i + 1 + j)) &&
              forall f :: f in plan.value[i].fids <==> BATCH_SIZE * i + 1 <= f <= BATCH_SIZE * i + BATCH_SIZE
  {
    var m := MaxFid(configured, hubFids).value;
    var plan := BackfillPlan([], Ok(hubFids), configured, startedAt).value;
    forall i, f | 0 <= i < NumBatches(m)
      ensures plan[i].Reconcile? && (f in plan[i].fids <==> BATCH_SIZE * i + 1 <= f <= BATCH_SIZE * i + BATCH_SIZE)
      ensures plan[i] == Reconcile(seq(BATCH_SIZE, j => BATCH_SIZE * i + 1 + j))
    {
      assert plan[i] == Reconcile(Batch(BATCH_SIZE * i + 1));
      InBatch(BATCH_SIZE * i + 1, f);
    }
  }

  /** Some batch from `starts` holds fid f. */
  predicate InSomeBatch(starts: seq<int>, f: int)
  {
    exists i :: 0 <= i < |starts| && f in Batch(starts[i])
  }

  /** Every fid from 1 to m is in some batch, and every batch fid is
      between 1 and m + 9. */
  lemma BatchesCoverOneToMax(m: int)
    requires m > 0
    ensures forall f :: 1 <= f <= m ==> InSomeBatch(BatchStarts(m), f)
    ensures forall i, f :: 0 <= i < NumBatches(m) && f in Batch(BatchStarts(m)[i]) ==>
              1 <= f <= m + BATCH_SIZE - 1
  {
    var starts := BatchStarts(m);
    forall f | 1 <= f <= m
      ensures InSomeBatch(starts, f)
    {
      var i := (f - 1) / BATCH_SIZE;
      InBatch(starts[i], f);
    }
    forall i, f | 0 <= i < NumBatches(m) && f in Batch(starts[i])
      ensures 1 <= f <= m + BATCH_SIZE - 1
    {
      InBatch(starts[i], f);
    }
  }

  /** Different batches share no fid. */
  lemma BatchesAreDisjoint(m: int, i: nat, j: nat, f: int)
    requires i < NumBatches(m) && j < NumBatches(m) && i != j
    ensures !(f in Batch(BatchStarts(m)[i]) && f in Batch(BatchStarts(m)[j]))
  {
    InBatch(BatchStarts(m)[i], f);
    InBatch(BatchStarts(m)[j], f);
  }

  /** A given fid list is enqueued unchanged as one reconcile job. */
  lemma BackfillExplicitFids(fids: seq<int>, hub: Result<seq<Fid>, string>, configured: Option<int>,
                             startedAt: Date)
    requires |fids| > 0
    ensures BackfillPlan(fids, hub, configured, startedAt) == Ok([Reconcile(fids), CompletionMarker(startedAt)])
  {
  }

  /** Whenever jobs are enqueued, the completion marker comes last and is
      the only marker. */
  lemma CompletionMarkerIsLast(fids: seq<int>, hub: Result<seq<Fid>, string>, configured: Option<int>,
                               startedAt: Date)
    requires BackfillPlan(fids, hub, configured, startedAt).Ok?
    ensures var plan := BackfillPlan(fids, hub, configured, startedAt).value;
            |plan| >= 1 && plan[|plan| - 1] == CompletionMarker(startedAt) &&
            forall i :: 0 <= i < |plan| - 1 ==> plan[i].Reconcile?
  {
  }

  /** A configured MAX_FID overrides the hub's answer; without one the
      hub's first fid is the maximum; a maximum that is 0 or missing fails
      before any job. */
  lemma MaxFidChoice(configured: Option<int>, hubFids: seq<Fid>, startedAt: Date)
    ensures configured.Some? && configured.value != 0 ==> MaxFid(configured, hubFids) == configured
    ensures configured.None? && |hubFids| > 0 && hubFids[0] != 0 ==> MaxFid(configured, hubFids) == Some(hubFids[0] as int)
    ensures MaxFid(configured, hubFids).None? <==>
              (configured.Some? && configured.value == 0) ||
              (configured.None? && (|hubFids| == 0 || hubFids[0] == 0))
    ensures MaxFid(configured, hubFids).None? ==>
              BackfillPlan([], Ok(hubFids), configured, startedAt) == Err(MaxFidUndefined)
  {
  }

  /** With no fid list, a failed fid query to the hub is the error, before
      any maximum is chosen or any job is planned. */
  lemma BackfillHubFailure(hub: Result<seq<Fid>, string>, configured: Option<int>, startedAt: Date)
    requires hub.Err?
    ensures BackfillPlan([], hub, configured, startedAt) == Err(HubFailure(hub.error))
  {
  }

  // ---------------------------------------------------------------------
  // Reconciliation

  /** One hub message as reconciliation reports it, with its three flags. */
  datatype ReconcileEntry = ReconcileEntry(message: Message, missingInDb: bool, prunedInDb: bool,
                                           revokedInDb: bool)

  datatype Action = Replay | LogReconciled(description: string) | NoAction

  /** What the reconcile callback does with one message: replay it when it
      is missing, else only log it when pruned or revoked. */
  function Decide(e: ReconcileEntry): (a: Action)
    ensures a == Replay <==> e.missingInDb
    ensures a.LogReconciled? <==> !e.missingInDb && (e.prunedInDb || e.revokedInDb)
    ensures a.LogReconciled? ==> a.description == if e.prunedInDb then "pruned" else "revoked"
  {
    if e.missingInDb then Replay
    else if e.prunedInDb || e.revokedInDb then
      LogReconciled(if e.prunedInDb then "pruned" else if e.revokedInDb then "revoked" else "existing")
    else NoAction
  }

  /** The messages replayed, in order, for one fid's entries. */
  function Replays(entries: seq<ReconcileEntry>): seq<Message>
  {
    if entries == [] then []
    else
      var last := entries[|entries| - 1];
      Replays(entries[..|entries| - 1]) + if Decide(last) == Replay then [last.message] else []
  }

  /** The messages replayed, in order, for a list of fids. */
  function ReplaysFor(fids: seq<Fid>, entriesFor: Fid -> seq<ReconcileEntry>): seq<Message>
  {
    if fids == [] then []
    else ReplaysFor(fids[..|fids| - 1], entriesFor) + Replays(entriesFor(fids[|fids| - 1]))
  }

  /** A message is replayed for one fid exactly when one of its entries
      flags it missing. */
  lemma {:induction false} ReplaysAreMissing(entries: seq<ReconcileEntry>, m: Message)
    ensures m in Replays(entries) <==>
              exists j :: 0 <= j < |entries| && entries[j].missingInDb && entries[j].message == m
  {
    if entries != [] {
      var init := entries[..|entries| - 1];
      ReplaysAreMissing(init, m);
      assert forall j :: 0 <= j < |init| ==> init[j] == entries[j];
    }
  }

  /** Reconciling a list of fids replays exactly the messages some fid's
      entries flag missing; pruned or revoked entries that are not missing
      cause no replay. */
  lemma {:induction false} ReplaysForAreMissing(fids: seq<Fid>, entriesFor: Fid -> seq<ReconcileEntry>, m: Message)
    ensures m in ReplaysFor(fids, entriesFor) <==>
              exists k, j :: 0 <= k < |fids| && 0 <= j < |entriesFor(fids[k])| &&
                             entriesFor(fids[k])[j].missingInDb && entriesFor(fids[k])[j].message == m
  {
    if fids != [] {
      var init := fids[..|fids| - 1];
      var lastFid := fids[|fids| - 1];
      ReplaysForAreMissing(init, entriesFor, m);
      ReplaysAreMissing(entriesFor(lastFid), m);
      assert forall k :: 0 <= k < |init| ==> init[k] == fids[k];
      if m in Replays(entriesFor(lastFid)) {
        var j :| 0 <= j < |entriesFor(lastFid)| && entriesFor(lastFid)[j].missingInDb &&
                 entriesFor(lastFid)[j].message == m;
        assert fids[|fids| - 1] == lastFid;
      }
    }
  }

  /** reconcileFids: for each fid in turn, walks the hub's entries and
      hands every missing message to the replay path; the result is the
      sequence of messages replayed. */
  method ReconcileFids(fids: seq<Fid>, entriesFor: Fid -> seq<ReconcileEntry>)
    returns (replayed: seq<Message>)
    ensures replayed == ReplaysFor(fids, entriesFor)
  {
    replayed := [];
    for k := 0 to |fids|
      invariant replayed == ReplaysFor(fids[..k], entriesFor)
    {
      var entries := entriesFor(fids[k]);
      for j := 0 to |entries|
        invariant replayed == ReplaysFor(fids[..k], entriesFor) + Replays(entries[..j])
      {
        var action := Decide(entries[j]);
        if action == Replay {
          replayed := replayed + [entries[j].message];
        }
        assert entries[..j + 1][..j] == entries[..j];
      }
      assert entries[..|entries|] == entries;
      assert fids[..k + 1][..k] == fids[..k];
    }
    assert fids[..|fids|] == fids;
  }
}
