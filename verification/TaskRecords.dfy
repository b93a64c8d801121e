/** Normalized log rows, and the turn records folded out of them.

    Everything is specified on the SET of rows, which has no order and no
    repetitions; the methods walk the rows in the order they arrive. */
module TaskRecords {
  import opened Common
  import opened Ranking

  datatype Group = Voice | Chat | Sensing

  datatype Kind = Start(group: Group) | Execution | Interaction | OtherEvent

  datatype Evidence =
    | RealtimeTurnDone
    | HarnessDelegated
    | HarnessTurnDone
    | HarnessTurnSummary
    | HarnessTurnError
    | HarnessCorrelatedSummary
    | HarnessQuestionOpen
    | DispatchError
    | ObservationLost
    | OtherEvidence

  /** `Incomplete` stands for an execution without an outcome; an outcome
      string outside the vocabulary is reported as `Unknown`. */
  datatype Outcome = Unknown | Completed | Cancelled | Failed | Incomplete

  /** The parameters of one event. An absent string is "". `realtime` is
      "the route is realtime_handled", `schemaV1` and `taskSchemaV1` are "the
      (task) schema version reads as 1", `rest` is everything else the
      canonical JSON of the event would show. */
  datatype Params = Params(
    interactionId: string,
    runId: string,
    revision: Option<int>,
    realtime: bool,
    schemaV1: bool,
    taskSchemaV1: bool,
    eligible: Option<bool>,
    eligibilityKnown: Option<bool>,
    startedAt: Option<int>,
    executionAt: Option<int>,
    observedAt: Option<int>,
    evidence: Evidence,
    outcome: Outcome,
    failureReason: bool,
    eventId: string,
    rest: int)

  const BLANK: Params :=
    Params("", "", None, false, false, false, None, None, None, None, None,
           OtherEvidence, Incomplete, false, "", 0)

  datatype Row = Row(kind: Kind, device: string, observedAt: Option<int>, params: Params)

  datatype Settings = Settings(now: int, settleSeconds: int, includeSynthetic: bool, group: Group)

  datatype TurnKey = TurnKey(device: string, id: string)

  datatype Exec = Exec(device: string, params: Params)

  datatype Record = Record(device: string, turn: Params)

  /** Position of a record's canonical JSON text in the order of all texts.
      Texts are countable and totally ordered, so reals can carry that order. */
  type Json = Params -> real

  // ----- which rows count -----

  const SYNTHETIC_PREFIXES: seq<string> := ["vi-smoke-", "chat-smoke-", "sensing-smoke-"]

  predicate Synthetic(id: string) {
    SYNTHETIC_PREFIXES[0] <= id || SYNTHETIC_PREFIXES[1] <= id || SYNTHETIC_PREFIXES[2] <= id
  }

  predicate Counts(r: Row, cfg: Settings) {
    && (r.observedAt.Some? ==> r.observedAt.value <= cfg.now)
    && r.device != ""
    && (cfg.includeSynthetic || !Synthetic(r.params.interactionId))
  }

  predicate IsSnapshot(r: Row, cfg: Settings) {
    Counts(r, cfg) && r.kind.Interaction? && cfg.group.Voice? && r.params.interactionId != ""
  }

  predicate IsStart(r: Row, cfg: Settings) {
    && Counts(r, cfg) && r.kind == Start(cfg.group) && r.params.interactionId != ""
    && r.params.schemaV1 && r.params.startedAt.Some?
  }

  predicate IsExecution(r: Row, cfg: Settings) {
    Counts(r, cfg) && r.kind.Execution? && r.params.schemaV1 && r.params.executionAt.Some?
  }

  function KeyOf(r: Row): TurnKey {
    TurnKey(r.device, r.params.interactionId)
  }

  function StartOf(r: Row): Params {
    r.params.(observedAt := r.observedAt)
  }

  function Snapshots(rows: set<Row>, cfg: Settings, key: TurnKey): set<Params> {
    set r | r in rows && IsSnapshot(r, cfg) && KeyOf(r) == key :: r.params
  }

  function Starts(rows: set<Row>, cfg: Settings, key: TurnKey): (s: set<Params>)
    ensures forall e <- s :: e.startedAt.Some?
  {
    set r | r in rows && IsStart(r, cfg) && KeyOf(r) == key :: StartOf(r)
  }

  function Executions(rows: set<Row>, cfg: Settings): (s: set<Exec>)
    ensures forall e <- s :: e.params.executionAt.Some?
  {
    set r | r in rows && IsExecution(r, cfg) :: Exec(r.device, r.params)
  }

  function SnapshotKeys(rows: set<Row>, cfg: Settings): set<TurnKey> {
    set r | r in rows && IsSnapshot(r, cfg) :: KeyOf(r)
  }

  function StartKeys(rows: set<Row>, cfg: Settings): set<TurnKey> {
    set r | r in rows && IsStart(r, cfg) :: KeyOf(r)
  }

  // ----- comparison keys -----

  function RevisionOf(p: Params): int {
    if p.revision.Some? then p.revision.value else 0
  }

  function StartedOf(p: Params): int {
    if p.startedAt.Some? then p.startedAt.value else 0
  }

  /** Observation time, or the start time when that is missing or zero. */
  function SeenOf(p: Params): int {
    if p.observedAt.Some? && p.observedAt.value != 0 then p.observedAt.value else StartedOf(p)
  }

  function ByRevision(json: Json): Params -> Rank {
    p => [RevisionOf(p) as real, json(p)]
  }

  function ByBinding(json: Json): Params -> Rank {
    p => [SeenOf(p) as real, StartedOf(p) as real, json(p)]
  }

  lemma RanksUniform(json: Json)
    ensures Uniform(ByRevision(json), 2) && Uniform(ByBinding(json), 3)
  {
  }

  lemma RanksStrict(json: Json)
    requires Injective(json)
    ensures Strict(ByRevision(json), 2) && Strict(ByBinding(json), 3)
  {
    forall x, y | ByRevision(json)(x) == ByRevision(json)(y) ensures x == y {
      assert ByRevision(json)(x)[1] == ByRevision(json)(y)[1];
    }
    forall x, y | ByBinding(json)(x) == ByBinding(json)(y) ensures x == y {
      assert ByBinding(json)(x)[2] == ByBinding(json)(y)[2];
    }
  }

  // ----- one turn record per interaction -----

  /** The authoritative snapshot of a key: highest revision, ties by JSON. */
  ghost function Latest(snapshots: set<Params>, json: Json): Params
    requires snapshots != {}
  {
    RanksUniform(json);
    Top(snapshots, ByRevision(json), 2)
  }

  function Bound(starts: set<Params>): set<Params> {
    set e | e in starts && e.runId != ""
  }

  function Times(base: Params, starts: set<Params>): set<int>
    requires forall e <- starts :: e.startedAt.Some?
  {
    (set e | e in starts :: e.startedAt.value)
    + if base.startedAt.Some? then {base.startedAt.value} else {}
  }

  /** A task start proves eligibility unless the turn was answered in realtime. */
  function Accepted(turn: Params): Params {
    if turn.realtime then turn
    else turn.(taskSchemaV1 := true, eligible := Some(true), eligibilityKnown := Some(true))
  }

  ghost function TurnOf(base: Params, starts: set<Params>, id: string, json: Json): Params
    requires forall e <- starts :: e.startedAt.Some?
  {
    if starts == {} then base.(interactionId := id)
    else
      RanksUniform(json);
      var run := if Bound(starts) == {} then base.runId else Top(Bound(starts), ByBinding(json), 3).runId;
      assert Times(base, starts) != {} by {
        var e :| e in starts;
        assert e.startedAt.value in Times(base, starts);
      }
      Accepted(base.(runId := run)).(startedAt := Some(Least(Times(base, starts))), interactionId := id)
  }

  ghost function RecordAt(rows: set<Row>, cfg: Settings, json: Json, key: TurnKey): Record
  {
    var snapshots := Snapshots(rows, cfg, key);
    var base := if snapshots == {} then BLANK else Latest(snapshots, json);
    Record(key.device, TurnOf(base, Starts(rows, cfg, key), key.id, json))
  }

  ghost function RecordsAt(rows: set<Row>, cfg: Settings, json: Json, keys: set<TurnKey>): set<Record>
  {
    set key | key in keys :: RecordAt(rows, cfg, json, key)
  }

  /** The merged records of a log: one per interaction seen in either source. */
  ghost function Records(rows: set<Row>, cfg: Settings, json: Json): set<Record>
  {
    RecordsAt(rows, cfg, json, SnapshotKeys(rows, cfg) + StartKeys(rows, cfg))
  }

  /** Different interactions give different records. */
  lemma RecordAtInjective(rows: set<Row>, cfg: Settings, json: Json, a: TurnKey, b: TurnKey)
    requires RecordAt(rows, cfg, json, a) == RecordAt(rows, cfg, json, b)
    ensures a == b
  {
    assert RecordAt(rows, cfg, json, a).turn.interactionId == a.id;
    assert RecordAt(rows, cfg, json, b).turn.interactionId == b.id;
  }

  // ----- the fold over the log -----

  ghost predicate Collected(rows: set<Row>, cfg: Settings, json: Json, snapshots: map<TurnKey, Params>,
                            starts: map<TurnKey, seq<Params>>, executions: seq<Exec>)
  {
    && SnapshotsCollected(rows, cfg, json, snapshots)
    && StartsCollected(rows, cfg, starts)
    && Elems(executions) == Executions(rows, cfg)
  }

  ghost predicate SnapshotsCollected(rows: set<Row>, cfg: Settings, json: Json, snapshots: map<TurnKey, Params>)
  {
    && snapshots.Keys == SnapshotKeys(rows, cfg)
    && forall k <- snapshots.Keys :: IsLatest(Snapshots(rows, cfg, k), json, snapshots[k])
  }

  ghost predicate StartsCollected(rows: set<Row>, cfg: Settings, starts: map<TurnKey, seq<Params>>) {
    && starts.Keys == StartKeys(rows, cfg)
    && forall k <- starts.Keys :: Elems(starts[k]) == Starts(rows, cfg, k)
  }

  ghost predicate IsLatest(snapshots: set<Params>, json: Json, p: Params)
  {
    RanksUniform(json);
    IsTop(snapshots, ByRevision(json), 2, p)
  }

  /** `q` was taken no later than `p`: a missing revision counts as zero, and of
      equal revisions the one with the greater JSON is the later. */
  predicate NoLater(q: Params, p: Params, json: Json) {
    var n, m := if q.revision.Some? then q.revision.value else 0, if p.revision.Some? then p.revision.value else 0;
    n < m || (n == m && json(q) <= json(p))
  }

  /** The latest snapshot is the one of highest revision. */
  lemma LatestIsHighest(snapshots: set<Params>, json: Json, p: Params)
    ensures IsLatest(snapshots, json, p) <==> p in snapshots && forall q <- snapshots :: NoLater(q, p, json)
  {
    RanksUniform(json);
    forall q | q in snapshots ensures NoLater(q, p, json) <==> !Below(ByRevision(json)(p), ByRevision(json)(q)) {
      BelowPair(ByRevision(json)(p), ByRevision(json)(q));
    }
  }

  /** Reads the rows in order: last revision per interaction, all task starts
      per interaction, all executions. */
  method Collect(rows: seq<Row>, cfg: Settings, json: Json)
    returns (snapshots: map<TurnKey, Params>, starts: map<TurnKey, seq<Params>>, executions: seq<Exec>)
    ensures Collected(Elems(rows), cfg, json, snapshots, starts, executions)
    ensures forall k <- snapshots.Keys, q <- Snapshots(Elems(rows), cfg, k) :: NoLater(q, snapshots[k], json)
  {
    snapshots, starts, executions := map[], map[], [];
    for i := 0 to |rows|
      invariant Collected(Elems(rows[..i]), cfg, json, snapshots, starts, executions)
    {
      var r := rows[i];
      ghost var before := Elems(rows[..i]);
      SnapshotsStep(before, r, cfg, json, snapshots);
      StartsStep(before, r, cfg, starts);
      ExecutionsStep(before, r, cfg, executions);
      assert Elems(rows[..i + 1]) == before + {r};
      if IsExecution(r, cfg) {
        executions := executions + [Exec(r.device, r.params)];
      } else if IsStart(r, cfg) {
        starts := AddStart(starts, r);
      } else if IsSnapshot(r, cfg) {
        snapshots := AddSnapshot(snapshots, r, json);
      }
    }
    assert rows[..|rows|] == rows;
    forall k | k in snapshots.Keys ensures forall q <- Snapshots(Elems(rows), cfg, k) :: NoLater(q, snapshots[k], json) {
      LatestIsHighest(Snapshots(Elems(rows), cfg, k), json, snapshots[k]);
    }
  }

  function AddStart(starts: map<TurnKey, seq<Params>>, r: Row): map<TurnKey, seq<Params>> {
    var key := KeyOf(r);
    starts[key := (if key in starts then starts[key] else []) + [StartOf(r)]]
  }

  /** Replaces the stored snapshot only by a strictly higher-ranked one. */
  function AddSnapshot(snapshots: map<TurnKey, Params>, r: Row, json: Json): map<TurnKey, Params> {
    var key := KeyOf(r);
    if key !in snapshots || Below(ByRevision(json)(snapshots[key]), ByRevision(json)(r.params))
    then snapshots[key := r.params] else snapshots
  }

  lemma SnapshotsStep(before: set<Row>, r: Row, cfg: Settings, json: Json, snapshots: map<TurnKey, Params>)
    requires SnapshotsCollected(before, cfg, json, snapshots)
    ensures SnapshotsCollected(before + {r}, cfg, json,
                               if IsSnapshot(r, cfg) then AddSnapshot(snapshots, r, json) else snapshots)
  {
    var snapshots' := if IsSnapshot(r, cfg) then AddSnapshot(snapshots, r, json) else snapshots;
    assert SnapshotKeys(before + {r}, cfg) == SnapshotKeys(before, cfg) + if IsSnapshot(r, cfg) then {KeyOf(r)} else {};
    forall k | k in snapshots'.Keys ensures IsLatest(Snapshots(before + {r}, cfg, k), json, snapshots'[k]) {
      KeysMatch(before, cfg, k);
      SetsGrow(before, r, cfg, k);
      if k == KeyOf(r) && IsSnapshot(r, cfg) {
        LatestStep(Snapshots(before, cfg, k), r.params, json, if k in snapshots then Some(snapshots[k]) else None);
      }
    }
  }

  lemma StartsStep(before: set<Row>, r: Row, cfg: Settings, starts: map<TurnKey, seq<Params>>)
    requires StartsCollected(before, cfg, starts)
    ensures StartsCollected(before + {r}, cfg, if IsStart(r, cfg) then AddStart(starts, r) else starts)
  {
    var starts' := if IsStart(r, cfg) then AddStart(starts, r) else starts;
    assert StartKeys(before + {r}, cfg) == StartKeys(before, cfg) + if IsStart(r, cfg) then {KeyOf(r)} else {};
    forall k | k in starts'.Keys ensures Elems(starts'[k]) == Starts(before + {r}, cfg, k) {
      KeysMatch(before, cfg, k);
      SetsGrow(before, r, cfg, k);
      hide StartKeys, Starts, IsStart, StartOf;
      if k == KeyOf(r) && IsStart(r, cfg) {
        ElemsAppend(if k in starts then starts[k] else [], StartOf(r));
      }
    }
  }

  lemma ExecutionsStep(before: set<Row>, r: Row, cfg: Settings, executions: seq<Exec>)
    requires Elems(executions) == Executions(before, cfg)
    ensures Elems(if IsExecution(r, cfg) then executions + [Exec(r.device, r.params)] else executions)
         == Executions(before + {r}, cfg)
  {
    assert Executions(before + {r}, cfg) ==
           Executions(before, cfg) + if IsExecution(r, cfg) then {Exec(r.device, r.params)} else {};
  }

  lemma SetsGrow(before: set<Row>, r: Row, cfg: Settings, k: TurnKey)
    ensures Snapshots(before + {r}, cfg, k) ==
            Snapshots(before, cfg, k) + if IsSnapshot(r, cfg) && KeyOf(r) == k then {r.params} else {}
    ensures Starts(before + {r}, cfg, k) ==
            Starts(before, cfg, k) + if IsStart(r, cfg) && KeyOf(r) == k then {StartOf(r)} else {}
  {
  }

  /** Keeping the higher-ranked of the stored and the new snapshot keeps the latest. */
  lemma LatestStep(seen: set<Params>, p: Params, json: Json, stored: Option<Params>)
    requires if stored.Some? then IsLatest(seen, json, stored.value) else seen == {}
    ensures IsLatest(seen + {p}, json,
                     if stored.None? || Below(ByRevision(json)(stored.value), ByRevision(json)(p)) then p
                     else stored.value)
  {
    RanksUniform(json);
    var rank := ByRevision(json);
    Trichotomy(rank(p), rank(p));
    if stored.Some? {
      Trichotomy(rank(stored.value), rank(p));
      forall y | y in seen && Below(rank(stored.value), rank(p)) ensures !Below(rank(p), rank(y)) {
        Transitive(rank(y), rank(stored.value), rank(p));
      }
    }
  }

  /** Snapshots of a key appear exactly when the key does. */
  lemma KeysMatch(before: set<Row>, cfg: Settings, k: TurnKey)
    ensures k in SnapshotKeys(before, cfg) <==> Snapshots(before, cfg, k) != {}
    ensures k in StartKeys(before, cfg) <==> Starts(before, cfg, k) != {}
  {
    if k in SnapshotKeys(before, cfg) {
      var x :| x in before && IsSnapshot(x, cfg) && KeyOf(x) == k;
      assert x.params in Snapshots(before, cfg, k);
    }
    if k in StartKeys(before, cfg) {
      var x :| x in before && IsStart(x, cfg) && KeyOf(x) == k;
      assert StartOf(x) in Starts(before, cfg, k);
    }
  }

  method BuildTurn(base: Params, starts: seq<Params>, id: string, json: Json) returns (turn: Params)
    requires Injective(json)
    requires forall e <- starts :: e.startedAt.Some?
    ensures turn == TurnOf(base, Elems(starts), id, json)
  {
    turn := base;
    if starts != [] {
      RanksStrict(json);
      assert starts[0] in Elems(starts);
      var bound := Bound(Elems(starts));
      if bound != {} {
        var latest := Max(bound, ByBinding(json), 3);
        TopUnique(bound, ByBinding(json), 3, latest);
        turn := turn.(runId := latest.runId);
      }
      if !turn.realtime {
        turn := turn.(taskSchemaV1 := true, eligible := Some(true), eligibilityKnown := Some(true));
      }
      var times := Times(base, Elems(starts));
      assert starts[0].startedAt.value in times;
      var first := Min(times);
      turn := turn.(startedAt := Some(first));
    }
    turn := turn.(interactionId := id);
  }

  method BuildRecord(ghost rows: set<Row>, cfg: Settings, json: Json, key: TurnKey,
                     snapshots: map<TurnKey, Params>, starts: map<TurnKey, seq<Params>>, ghost executions: seq<Exec>)
    returns (record: Record)
    requires Injective(json)
    requires Collected(rows, cfg, json, snapshots, starts, executions)
    ensures record == RecordAt(rows, cfg, json, key)
  {
    KeysMatch(rows, cfg, key);
    var base := if key in snapshots then snapshots[key] else BLANK;
    if key in snapshots {
      RanksStrict(json);
      TopUnique(Snapshots(rows, cfg, key), ByRevision(json), 2, base);
    }
    var own := if key in starts then starts[key] else [];
    assert Elems(own) == Starts(rows, cfg, key);
    assert forall e <- own :: e in Elems(own);
    var turn := BuildTurn(base, own, key.id, json);
    record := Record(key.device, turn);
  }

  /** One record per interaction seen in either source, in some order. */
  method BuildRecords(ghost rows: set<Row>, cfg: Settings, json: Json,
                      snapshots: map<TurnKey, Params>, starts: map<TurnKey, seq<Params>>, ghost executions: seq<Exec>)
    returns (records: seq<Record>)
    requires Injective(json)
    requires Collected(rows, cfg, json, snapshots, starts, executions)
    ensures Elems(records) == Records(rows, cfg, json)
    ensures Distinct(records)
  {
    assert snapshots.Keys == SnapshotKeys(rows, cfg) && starts.Keys == StartKeys(rows, cfg);
    assert RecordsAt(rows, cfg, json, {}) == {};
    hide Collected, RecordsAt, RecordAt, SnapshotKeys, StartKeys;
    records := [];
    var left := snapshots.Keys + starts.Keys;
    ghost var done := {};
    while left != {}
      invariant done + left == SnapshotKeys(rows, cfg) + StartKeys(rows, cfg) && done !! left
      invariant Elems(records) == RecordsAt(rows, cfg, json, done)
      invariant Distinct(records)
      decreases left
    {
      var key :| key in left;
      var record := BuildRecord(rows, cfg, json, key, snapshots, starts, executions);
      RecordsAtGrow(rows, cfg, json, done, key);
      ElemsAppend(records, record);
      records := records + [record];
      left := left - {key};
      done := done + {key};
    }
  }

  predicate Distinct<T(==)>(s: seq<T>) {
    forall i, j :: 0 <= i < j < |s| ==> s[i] != s[j]
  }

  lemma ElemsAppend<T>(s: seq<T>, x: T)
    ensures Elems(s + [x]) == Elems(s) + {x}
  {
  }

  lemma RecordsAtGrow(rows: set<Row>, cfg: Settings, json: Json, keys: set<TurnKey>, key: TurnKey)
    requires key !in keys
    ensures RecordsAt(rows, cfg, json, keys + {key}) == RecordsAt(rows, cfg, json, keys) + {RecordAt(rows, cfg, json, key)}
    ensures RecordAt(rows, cfg, json, key) !in RecordsAt(rows, cfg, json, keys)
  {
    forall k | k in keys ensures RecordAt(rows, cfg, json, k) != RecordAt(rows, cfg, json, key) {
      if RecordAt(rows, cfg, json, k) == RecordAt(rows, cfg, json, key) {
        RecordAtInjective(rows, cfg, json, k, key);
      }
    }
  }
}
