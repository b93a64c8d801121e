/** What each row of a log adds to the report, told from the fields of the rows. */
module ReportRows {
  import opened Common
  import opened Ranking
  import opened TaskRecords
  import opened TurnGroups
  import opened ExecutionEvidence
  import opened TaskReport

  // ----- rows that change nothing -----

  /** Two sets of rows that record the same are reported the same. */
  lemma SameRecordsSameReport(rows: set<Row>, rows': set<Row>, cfg: Settings, json: Json, text: Text,
                              devices: Result, total: Counter)
    requires Records(rows, cfg, json) == Records(rows', cfg, json)
    requires Executions(rows, cfg) == Executions(rows', cfg)
    ensures Reported(rows, cfg, json, text, devices, total) <==> Reported(rows', cfg, json, text, devices, total)
  {
    hide Records, Executions, Faithful, Tally, ResultCount, Count;
    if log: seq<Exec>, ledger: Ledger :|
      Elems(log) == Executions(rows, cfg)
      && IsReport(rows, Unique(log, json).Values, cfg, json, text, devices, total, ledger) {
      assert IsReport(rows', Unique(log, json).Values, cfg, json, text, devices, total, ledger);
    }
    if log: seq<Exec>, ledger: Ledger :|
      Elems(log) == Executions(rows', cfg)
      && IsReport(rows', Unique(log, json).Values, cfg, json, text, devices, total, ledger) {
      assert IsReport(rows, Unique(log, json).Values, cfg, json, text, devices, total, ledger);
    }
  }

  /** The records are told by the keys and, per key, the latest snapshot and the starts. */
  lemma SameSourcesSameRecords(rows: set<Row>, rows': set<Row>, cfg: Settings, json: Json)
    requires SnapshotKeys(rows, cfg) == SnapshotKeys(rows', cfg) && StartKeys(rows, cfg) == StartKeys(rows', cfg)
    requires forall key: TurnKey :: Starts(rows, cfg, key) == Starts(rows', cfg, key)
    requires forall key: TurnKey :: SameLatest(Snapshots(rows, cfg, key), Snapshots(rows', cfg, key), json)
    ensures Records(rows, cfg, json) == Records(rows', cfg, json)
  {
    hide Snapshots, Starts, SnapshotKeys, StartKeys, TurnOf;
    forall key: TurnKey ensures RecordAt(rows, cfg, json, key) == RecordAt(rows', cfg, json, key) {
      assert SameLatest(Snapshots(rows, cfg, key), Snapshots(rows', cfg, key), json);
      assert Starts(rows, cfg, key) == Starts(rows', cfg, key);
    }
    var keys := SnapshotKeys(rows, cfg) + StartKeys(rows, cfg);
    assert RecordsAt(rows, cfg, json, keys) == RecordsAt(rows', cfg, json, keys);
  }

  ghost predicate SameLatest(a: set<Params>, b: set<Params>, json: Json) {
    (a == {} <==> b == {}) && (a != {} && b != {} ==> Latest(a, json) == Latest(b, json))
  }

  /** A snapshot of an interaction whose revision is lower than one already seen, or
      equal with no greater JSON, changes no count. */
  lemma OlderRevisionChangesNothing(rows: set<Row>, older: Row, newer: Row, cfg: Settings, json: Json, text: Text,
                                    devices: Result, total: Counter)
    requires Injective(json)
    requires newer in rows && IsSnapshot(newer, cfg) && IsSnapshot(older, cfg) && KeyOf(newer) == KeyOf(older)
    requires NoLater(older.params, newer.params, json)
    ensures Reported(rows + {older}, cfg, json, text, devices, total) <==> Reported(rows, cfg, json, text, devices, total)
  {
    var rows' := rows + {older};
    assert SnapshotKeys(rows', cfg) == SnapshotKeys(rows, cfg);
    assert StartKeys(rows', cfg) == StartKeys(rows, cfg);
    assert Executions(rows', cfg) == Executions(rows, cfg);
    forall key: TurnKey
      ensures Starts(rows', cfg, key) == Starts(rows, cfg, key)
      ensures SameLatest(Snapshots(rows', cfg, key), Snapshots(rows, cfg, key), json)
    {
      SetsGrow(rows, older, cfg, key);
      assert Snapshots(rows, cfg, key) + {} == Snapshots(rows, cfg, key);
      if key == KeyOf(older) {
        assert newer.params in Snapshots(rows, cfg, key);
        LatestUnmoved(Snapshots(rows, cfg, key), older.params, newer.params, json);
      }
    }
    hide SnapshotKeys, StartKeys, Starts, Snapshots, Executions, SameLatest, Reported, Records;
    SameSourcesSameRecords(rows', rows, cfg, json);
    SameRecordsSameReport(rows', rows, cfg, json, text, devices, total);
  }

  lemma LatestUnmoved(snapshots: set<Params>, p: Params, q: Params, json: Json)
    requires Injective(json) && q in snapshots && NoLater(p, q, json)
    ensures SameLatest(snapshots + {p}, snapshots, json)
  {
    RanksStrict(json);
    var top := Latest(snapshots, json);
    LatestIsHighest(snapshots, json, top);
    LatestIsHighest(snapshots + {p}, json, top);
    TopUnique(snapshots + {p}, ByRevision(json), 2, top);
  }

  /** Rows the report passes over: observed after its time, without a device,
      synthetic, of another kind or cohort, or without what their kind needs. */
  predicate PassedOver(r: Row, cfg: Settings) {
    || (r.observedAt.Some? && r.observedAt.value > cfg.now)
    || r.device == ""
    || (!cfg.includeSynthetic
        && ("vi-smoke-" <= r.params.interactionId || "chat-smoke-" <= r.params.interactionId
            || "sensing-smoke-" <= r.params.interactionId))
    || match r.kind
       case Execution => !r.params.schemaV1 || r.params.executionAt.None?
       case Interaction => cfg.group != Voice || r.params.interactionId == ""
       case Start(group) =>
         group != cfg.group || r.params.interactionId == "" || !r.params.schemaV1 || r.params.startedAt.None?
       case OtherEvent => true
  }

  /** A row is passed over exactly if it is no snapshot, no start and no execution. */
  lemma PassedOverExactly(r: Row, cfg: Settings)
    ensures PassedOver(r, cfg) <==> !IsSnapshot(r, cfg) && !IsStart(r, cfg) && !IsExecution(r, cfg)
    ensures !PassedOver(r, cfg) ==>
              (IsSnapshot(r, cfg) <==> r.kind.Interaction?) && (IsStart(r, cfg) <==> r.kind.Start?)
              && (IsExecution(r, cfg) <==> r.kind.Execution?)
  {
  }

  lemma PassedOverChangesNothing(rows: set<Row>, r: Row, cfg: Settings, json: Json, text: Text,
                                 devices: Result, total: Counter)
    requires PassedOver(r, cfg)
    ensures Reported(rows + {r}, cfg, json, text, devices, total) <==> Reported(rows, cfg, json, text, devices, total)
  {
    PassedOverExactly(r, cfg);
    hide IsSnapshot, IsStart, IsExecution;
    var rows' := rows + {r};
    assert SnapshotKeys(rows', cfg) == SnapshotKeys(rows, cfg);
    assert StartKeys(rows', cfg) == StartKeys(rows, cfg);
    assert Executions(rows', cfg) == Executions(rows, cfg);
    forall key: TurnKey
      ensures Starts(rows', cfg, key) == Starts(rows, cfg, key)
      ensures SameLatest(Snapshots(rows', cfg, key), Snapshots(rows, cfg, key), json)
    {
      SetsGrow(rows, r, cfg, key);
      assert Snapshots(rows, cfg, key) + {} == Snapshots(rows, cfg, key);
      assert Starts(rows, cfg, key) + {} == Starts(rows, cfg, key);
    }
    hide SnapshotKeys, StartKeys, Starts, Snapshots, Executions, SameLatest, Reported, Records;
    SameSourcesSameRecords(rows', rows, cfg, json);
    SameRecordsSameReport(rows', rows, cfg, json, text, devices, total);
  }

  // ----- the turns a log records -----

  /** A turn is recorded for exactly the interactions that some snapshot or start
      names, under the device that reported them. */
  lemma RecordedExactly(rows: set<Row>, cfg: Settings, json: Json, device: string, id: string)
    ensures (exists r :: r in Records(rows, cfg, json) && r.device == device && r.turn.interactionId == id) <==>
              exists x :: x in rows && !PassedOver(x, cfg) && !x.kind.Execution?
                          && x.device == device && x.params.interactionId == id
  {
    var key := TurnKey(device, id);
    var keys := SnapshotKeys(rows, cfg) + StartKeys(rows, cfg);
    forall k: TurnKey ensures RecordAt(rows, cfg, json, k).device == k.device && RecordAt(rows, cfg, json, k).turn.interactionId == k.id {
    }
    hide RecordAt;
    if r :| r in Records(rows, cfg, json) && r.device == device && r.turn.interactionId == id {
      var k :| k in keys && RecordAt(rows, cfg, json, k) == r;
      assert k == key;
      var x :| x in rows && (IsSnapshot(x, cfg) || IsStart(x, cfg)) && KeyOf(x) == key;
      PassedOverExactly(x, cfg);
    }
    if x :| x in rows && !PassedOver(x, cfg) && !x.kind.Execution? && x.device == device && x.params.interactionId == id {
      PassedOverExactly(x, cfg);
      assert KeyOf(x) == key && key in keys;
      assert RecordAt(rows, cfg, json, key) in Records(rows, cfg, json);
    }
  }

  /** The snapshots and starts of an interaction are those of the rows that name it;
      a start is seen when its row was observed. */
  lemma SourcesExactly(rows: set<Row>, cfg: Settings, key: TurnKey, p: Params)
    ensures p in Snapshots(rows, cfg, key) <==>
              exists x :: x in rows && !PassedOver(x, cfg) && x.kind.Interaction?
                          && x.device == key.device && x.params.interactionId == key.id && p == x.params
    ensures p in Starts(rows, cfg, key) <==>
              exists x :: x in rows && !PassedOver(x, cfg) && x.kind.Start?
                          && x.device == key.device && x.params.interactionId == key.id
                          && p == x.params.(observedAt := x.observedAt)
  {
    forall x: Row ensures PassedOver(x, cfg) <==> !IsSnapshot(x, cfg) && !IsStart(x, cfg) && !IsExecution(x, cfg) {
      PassedOverExactly(x, cfg);
    }
  }

  /** The turn of an interaction is built on the snapshot no other is later than, on
      a blank one if it has none, and on its starts. */
  lemma BaseExactly(rows: set<Row>, cfg: Settings, json: Json, key: TurnKey, p: Params)
    requires Injective(json)
    requires var snapshots := Snapshots(rows, cfg, key);
             if snapshots == {} then p == BLANK else p in snapshots && forall q <- snapshots :: NoLater(q, p, json)
    ensures RecordAt(rows, cfg, json, key) == Record(key.device, TurnOf(p, Starts(rows, cfg, key), key.id, json))
  {
    hide Snapshots, Starts, TurnOf, NoLater;
    RanksStrict(json);
    LatestIsHighest(Snapshots(rows, cfg, key), json, p);
    if Snapshots(rows, cfg, key) != {} {
      TopUnique(Snapshots(rows, cfg, key), ByRevision(json), 2, p);
    }
  }

  /** When a start was seen: its observation, unless that is missing or zero. */
  function SeenAt(e: Params): int
    requires e.startedAt.Some?
  {
    if e.observedAt.Some? && e.observedAt.value != 0 then e.observedAt.value else e.startedAt.value
  }

  /** Seen no later, and of starts seen together begun no later. */
  predicate SeenBefore(e: Params, f: Params)
    requires e.startedAt.Some? && f.startedAt.Some?
  {
    SeenAt(e) < SeenAt(f) || (SeenAt(e) == SeenAt(f) && e.startedAt.value <= f.startedAt.value)
  }

  /** The run of a turn with starts is that of the start seen last among those that
      name a run, and the snapshot's when none does. */
  lemma RunExactly(base: Params, starts: set<Params>, id: string, json: Json)
    requires starts != {} && forall e <- starts :: e.startedAt.Some?
    ensures var t := TurnOf(base, starts, id, json);
            var named := exists e :: e in starts && e.runId != "";
            && (!named ==> t.runId == base.runId)
            && (named ==> exists e :: e in starts && e.runId != "" && t.runId == e.runId
                                      && forall f <- starts :: f.runId != "" ==> SeenBefore(f, e))
  {
    hide Times, Least;
    RanksUniform(json);
    if Bound(starts) != {} {
      var top := Top(Bound(starts), ByBinding(json), 3);
      assert top in starts && top.runId != "";
      forall f | f in starts && f.runId != "" ensures SeenBefore(f, top) {
        assert f in Bound(starts) && !Below(ByBinding(json)(top), ByBinding(json)(f));
        BelowTriple(ByBinding(json)(top), ByBinding(json)(f));
      }
    } else {
      assert forall f <- starts :: f !in Bound(starts);
    }
  }

  /** A turn with starts began at the earliest of all start times. */
  lemma BegunExactly(base: Params, starts: set<Params>, id: string, json: Json)
    requires starts != {} && forall e <- starts :: e.startedAt.Some?
    ensures var t := TurnOf(base, starts, id, json);
            && t.startedAt.Some?
            && (forall e <- starts :: t.startedAt.value <= e.startedAt.value)
            && (base.startedAt.Some? ==> t.startedAt.value <= base.startedAt.value)
            && (t.startedAt == base.startedAt || exists e :: e in starts && e.startedAt == t.startedAt)
  {
    hide Bound, ByBinding;
    var e :| e in starts;
    assert e.startedAt.value in Times(base, starts);
    forall f | f in starts ensures TurnOf(base, starts, id, json).startedAt.value <= f.startedAt.value {
      assert f.startedAt.value in Times(base, starts);
    }
  }

  /** A turn without a start is its snapshot. A start proves eligibility unless the
      turn was answered in realtime; run and start time aside, nothing else changes. */
  lemma TurnExactly(base: Params, starts: set<Params>, id: string, json: Json)
    requires forall e <- starts :: e.startedAt.Some?
    ensures var t := TurnOf(base, starts, id, json);
            if starts == {} then t == base.(interactionId := id)
            else if base.realtime then t == base.(runId := t.runId, startedAt := t.startedAt, interactionId := id)
            else t == base.(runId := t.runId, startedAt := t.startedAt, interactionId := id, taskSchemaV1 := true,
                            eligible := Some(true), eligibilityKnown := Some(true))
  {
    hide Bound, ByBinding, Times, Least;
  }

  // ----- which turns are merged -----

  /** Records are merged over a shared interaction or a shared run of one device. */
  lemma SharesExactly(a: Record, b: Record)
    ensures Shares(a, b) <==>
              a.device == b.device
              && ((a.turn.interactionId != "" && a.turn.interactionId == b.turn.interactionId)
                  || (a.turn.runId != "" && a.turn.runId == b.turn.runId))
  {
    if a.turn.interactionId != "" && a.turn.interactionId == b.turn.interactionId && a.device == b.device {
      assert IdentifierOf(a, InteractionId) == IdentifierOf(b, InteractionId);
    }
    if a.turn.runId != "" && a.turn.runId == b.turn.runId && a.device == b.device {
      assert IdentifierOf(a, RunId) == IdentifierOf(b, RunId);
    }
  }

  /** So two turns of one run, or of one interaction, are counted as one. */
  lemma SameRunSameGroup(records: set<Record>, a: Record, b: Record, g: set<Record>)
    requires g in Components(records) && a in g && b in records && Shares(a, b)
    ensures b in g
  {
    hide Shares;
    var c :| c in records && g == Component(records, c);
    ConnectedStep(records, a, b);
    ConnectedTransitive(records, c, a, b);
  }

  // ----- the turn a group is counted by -----

  /** `q` stands for a group no better than `p`: realtime first, then a proven task,
      then one known eligible, then the higher revision. */
  predicate NoBetter(q: Params, p: Params) {
    var n, m := if q.revision.Some? then q.revision.value else 0, if p.revision.Some? then p.revision.value else 0;
    if q.realtime != p.realtime then p.realtime
    else if q.taskSchemaV1 != p.taskSchemaV1 then p.taskSchemaV1
    else if (q.eligible == Some(true)) != (p.eligible == Some(true)) then p.eligible == Some(true)
    else n <= m
  }

  /** A group is counted by the best of its turns, dated by its earliest start. */
  lemma GroupTurnExactly(group: set<Record>, json: Json)
    requires group != {}
    ensures var t := TurnOfGroup(group, json);
            && (exists r :: r in group && t == r.turn.(startedAt := t.startedAt)
                            && (t.startedAt == r.turn.startedAt || r.turn.startedAt.None? || t.startedAt.Some?)
                            && forall q <- group :: NoBetter(q.turn, r.turn))
            && (forall q <- group :: q.turn.startedAt.Some? ==>
                  t.startedAt.Some? && t.startedAt.value <= q.turn.startedAt.value)
            && (t.startedAt.Some? ==> exists q :: q in group && q.turn.startedAt == t.startedAt)
  {
    hide NoBetter, ByProof, Below;
    ByProofUniform(json);
    var r0 :| r0 in group;
    assert r0.turn in Turns(group);
    var top := Top(Turns(group), ByProof(json), 5);
    var r :| r in group && r.turn == top;
    forall q | q in group ensures NoBetter(q.turn, r.turn) {
      assert q.turn in Turns(group);
      ProofOrder(q.turn, r.turn, json);
    }
    forall q | q in group && q.turn.startedAt.Some? ensures q.turn.startedAt.value in StartTimes(Turns(group)) {
      assert q.turn in Turns(group);
    }
  }

  lemma ProofOrder(q: Params, p: Params, json: Json)
    requires !Below(ByProof(json)(p), ByProof(json)(q))
    ensures NoBetter(q, p)
  {
    hide Below;
    var a, b := ByProof(json)(p), ByProof(json)(q);
    NotBelowFive(a, b);
    assert a[0] == Bit(p.realtime) && b[0] == Bit(q.realtime);
    assert a[1] == Bit(p.taskSchemaV1) && b[1] == Bit(q.taskSchemaV1);
    assert a[2] == Bit(p.eligible == Some(true)) && b[2] == Bit(q.eligible == Some(true));
    assert a[3] == RevisionOf(p) as real && b[3] == RevisionOf(q) as real;
  }

  lemma NotBelowFive(a: Rank, b: Rank)
    requires |a| == |b| == 5 && !Below(a, b)
    ensures a[0] > b[0] || (a[0] == b[0] && (a[1] > b[1] || (a[1] == b[1] && (a[2] > b[2] || (a[2] == b[2] && a[3] >= b[3])))))
  {
    hide Below;
    var x, y := a[2..], b[2..];
    assert a[1..][1..] == x && b[1..][1..] == y && a[1..][0] == a[1] && b[1..][0] == b[1];
    assert x[0] == a[2] && x[1] == a[3] && y[0] == b[2] && y[1] == b[3];
    BelowStep(a, b);
    BelowStep(a[1..], b[1..]);
    BelowTriple(x, y);
  }

  lemma BelowStep(a: Rank, b: Rank)
    requires |a| == |b| && a != []
    ensures Below(a, b) <==> a[0] < b[0] || (a[0] == b[0] && Below(a[1..], b[1..]))
  {
  }

  // ----- the evidence of a turn -----

  /** Two executions are one exactly if they are of one device and bear the same
      event id, or bear none and say the same. */
  lemma IdentityExactly(e: Exec, f: Exec, json: Json)
    requires Injective(json)
    ensures IdentityOf(e, json) == IdentityOf(f, json) <==>
              e.device == f.device && e.params.eventId == f.params.eventId
              && (e.params.eventId == "" ==> e.params == f.params)
  {
    if json(e.params) == json(f.params) {
      assert e.params == f.params;
    }
  }

  /** The evidence for a turn with these identifiers: what some due execution
      reports under one of its runs or interactions. */
  lemma CandidatesExactly(executions: set<Exec>, ids: set<Identifier>, now: int, p: Params)
    ensures p in Candidates(executions, ids, now) <==>
              p.executionAt.Some? && p.executionAt.value <= now
              && exists e :: e in executions && e.params == p
                             && ((p.runId != "" && Identifier(e.device, RunId, p.runId) in ids)
                                 || (p.interactionId != "" && Identifier(e.device, InteractionId, p.interactionId) in ids))
  {
    if p in Candidates(executions, ids, now) {
      var e :| e in executions && Due(e, now) && e.params == p && exists id :: id in ids && Carries(e, id);
      var id :| id in ids && Carries(e, id);
      match id.field { case RunId => case InteractionId => }
    }
    if e :| e in executions && e.params == p && p.executionAt.Some? && p.executionAt.value <= now
            && ((p.runId != "" && Identifier(e.device, RunId, p.runId) in ids)
                || (p.interactionId != "" && Identifier(e.device, InteractionId, p.interactionId) in ids)) {
      if p.runId != "" && Identifier(e.device, RunId, p.runId) in ids {
        assert Carries(e, Identifier(e.device, RunId, p.runId));
      } else {
        assert Carries(e, Identifier(e.device, InteractionId, p.interactionId));
      }
    }
  }

  /** What follows a delegation up: a turn, its summary, an error or a question. */
  predicate FollowsUp(e: Params) {
    || e.evidence.HarnessTurnDone? || e.evidence.HarnessTurnSummary? || e.evidence.HarnessTurnError?
    || e.evidence.HarnessCorrelatedSummary? || e.evidence.HarnessQuestionOpen? || e.evidence.DispatchError?
  }

  /** Evidence that the first two filters keep: for a realtime turn its own, and
      once something was delegated only what follows that up or its loss, or while
      nothing does the delegation itself. */
  predicate Kept(turn: Params, c: set<Params>, e: Params) {
    if turn.realtime then e in c && e.evidence.RealtimeTurnDone?
    else
      e in c
      && ((exists d :: d in c && d.evidence.HarnessDelegated?) ==>
            if exists f :: f in c && (FollowsUp(f) || f.evidence.ObservationLost?)
            then FollowsUp(e) || e.evidence.ObservationLost? else e.evidence.HarnessDelegated?)
  }

  /** Of that evidence a lost observation counts only while none is terminal. */
  lemma AdmittedExactly(turn: Params, c: set<Params>, e: Params)
    ensures e in Admitted(turn, c) <==>
              Kept(turn, c, e)
              && !(e.evidence.ObservationLost?
                   && exists f :: Kept(turn, c, f) && (f.outcome == Completed || f.outcome == Failed || f.outcome == Cancelled))
  {
    forall f: Params ensures f in AfterDelegation(Relevant(turn, c)) <==> Kept(turn, c, f) {
      KeptExactly(turn, c, f);
    }
  }

  lemma KeptExactly(turn: Params, c: set<Params>, e: Params)
    ensures e in AfterDelegation(Relevant(turn, c)) <==> Kept(turn, c, e)
  {
    var r := Relevant(turn, c);
    assert forall f: Params :: f.evidence in HARNESS_FOLLOW_UPS <==> FollowsUp(f);
    if turn.realtime {
      assert !Delegated(r);
    } else {
      var followed := set f | f in c && (f.evidence in HARNESS_FOLLOW_UPS || f.evidence.ObservationLost?);
      if f :| f in c && (FollowsUp(f) || f.evidence.ObservationLost?) {
        assert f in followed;
      } else {
        assert followed == {};
      }
    }
  }

  /** The outcome of a turn: failed if any admitted evidence failed, or there is
      none and the turn names a failure; else cancelled if any was cancelled; else
      that of the latest; a turn without evidence is incomplete. */
  lemma VerdictExactly(turn: Params, a: set<Params>, text: Text, o: Outcome)
    requires Judged(turn, a, text, o)
    ensures o == Failed <==> (exists e :: e in a && e.outcome == Failed) || (a == {} && turn.failureReason)
    ensures o == Cancelled <==> (exists e :: e in a && e.outcome == Cancelled) && !exists e :: e in a && e.outcome == Failed
    ensures a == {} ==> o == (if turn.failureReason then Failed else Incomplete)
    ensures o != Failed && o != Cancelled && a != {} ==>
              exists e :: e in a && e.outcome == o && forall f <- a :: AtOf(f) <= AtOf(e)
  {
    if a != {} && !AnyOutcome(a, Failed) && !AnyOutcome(a, Cancelled) {
      var e :| IsTop(a, ByRecency(text), 3, e) && o == e.outcome;
      assert e in a;
      forall f | f in a ensures AtOf(f) <= AtOf(e) {
        assert !Below(ByRecency(text)(e), ByRecency(text)(f));
      }
    }
  }

  function AtOf(e: Params): int {
    if e.executionAt.Some? then e.executionAt.value else 0
  }

  // ----- the labels of a turn -----

  /** What a merged turn is counted as, told from its fields and the clock. */
  lemma CountedExactly(e: Entry, cfg: Settings)
    ensures var t := e.turn; var cutoff := Cutoff(cfg);
            var cohort := t.taskSchemaV1 && t.eligible != Some(false);
            var dated := cohort && t.startedAt.Some?;
            && (Has(e, cutoff, Legacy) <==> !t.taskSchemaV1) && (Has(e, cutoff, Versioned) <==> t.taskSchemaV1)
            && (Has(e, cutoff, Ineligible) <==> t.taskSchemaV1 && t.eligible == Some(false))
            && (Has(e, cutoff, EligibilityUnknown) <==> cohort && t.eligibilityKnown != Some(true))
            && (Has(e, cutoff, MissingStart) <==> cohort && t.startedAt.None?)
            && (Has(e, cutoff, FreshPending) <==> dated && t.startedAt.value + 1000 * cfg.settleSeconds > cfg.now)
            && (Has(e, cutoff, Mature) <==> dated && t.startedAt.value + 1000 * cfg.settleSeconds <= cfg.now)
            && forall o :: Has(e, cutoff, Ended(o)) <==> Has(e, cutoff, Mature) && o == e.outcome
  {
  }
}
