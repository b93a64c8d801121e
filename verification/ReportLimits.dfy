/** The report of a growing log, and the logs whose report depends on the order
    in which they were exported. */
module ReportLimits {
  import opened Common
  import opened Ranking
  import opened TaskRecords
  import opened TurnGroups
  import opened ExecutionEvidence
  import opened TaskReport

  // ----- failures stay reported -----

  /** A merged turn failed for good: mature, with failing evidence that is
      neither a delegation nor a lost observation. */
  ghost predicate Condemned(rows: set<Row>, cfg: Settings, json: Json, g: set<Record>) {
    && g != {}
    && Eligible(TurnOfGroup(g, json)) && Settled(TurnOfGroup(g, json), Cutoff(cfg))
    && exists f :: f in Admitted(TurnOfGroup(g, json), Candidates(Executions(rows, cfg), GroupIdentifiers(g), cfg.now)) && Fails(f)
  }

  /** The condemned turns of `device` (of all devices, for None). */
  ghost function CondemnedTurns(rows: set<Row>, cfg: Settings, json: Json, device: Option<string>): set<set<Record>> {
    set g | g in Components(Records(rows, cfg, json)) && Condemned(rows, cfg, json, g)
            && (device.Some? ==> DeviceOf(g) == device.value)
  }

  /** Rows that only add executions, none of them a delegation. */
  predicate AddsEvidence(more: set<Row>) {
    forall r <- more :: r.kind.Execution? && !r.params.evidence.HarnessDelegated?
  }

  lemma EvidenceKeepsTurns(rows: set<Row>, more: set<Row>, cfg: Settings, json: Json)
    requires AddsEvidence(more)
    ensures Records(rows + more, cfg, json) == Records(rows, cfg, json)
    ensures Executions(rows + more, cfg) == Executions(rows, cfg) + Executions(more, cfg)
    ensures forall e <- Executions(more, cfg) :: !e.params.evidence.HarnessDelegated?
  {
    assert SnapshotKeys(rows + more, cfg) == SnapshotKeys(rows, cfg);
    assert StartKeys(rows + more, cfg) == StartKeys(rows, cfg);
    forall key: TurnKey ensures RecordAt(rows + more, cfg, json, key) == RecordAt(rows, cfg, json, key) {
      assert Snapshots(rows + more, cfg, key) == Snapshots(rows, cfg, key);
      assert Starts(rows + more, cfg, key) == Starts(rows, cfg, key);
    }
    var keys := SnapshotKeys(rows, cfg) + StartKeys(rows, cfg);
    assert RecordsAt(rows + more, cfg, json, keys) == RecordsAt(rows, cfg, json, keys);
  }

  lemma CondemnedIsFailed(rows: set<Row>, more: set<Row>, cfg: Settings, json: Json, text: Text, g: set<Record>, e: Entry)
    requires AddsEvidence(more) && Condemned(rows, cfg, json, g)
    requires Entered(g, e, Executions(rows + more, cfg), cfg.now, json, text)
    ensures e.outcome == Failed && Has(e, Cutoff(cfg), Ended(Failed))
  {
    hide Admitted, Candidates, Executions, Fails, Judged, TurnOfGroup, Records, GroupIdentifiers, DeviceOf;
    EvidenceKeepsTurns(rows, more, cfg, json);
    var f :| f in Admitted(e.turn, Candidates(Executions(rows, cfg), GroupIdentifiers(g), cfg.now)) && Fails(f);
    FailureStaysInLog(e.turn, Executions(rows, cfg), Executions(more, cfg), GroupIdentifiers(g), cfg.now, f, text, e.outcome);
  }

  /** However many executions that delegate nothing a log gains, its report counts
      every condemned turn as failed, per device and in total. */
  lemma FailuresStayReported(rows: set<Row>, more: set<Row>, cfg: Settings, json: Json, text: Text,
                             devices: Result, total: Counter)
    requires Injective(json) && AddsEvidence(more) && NoConflict(Executions(rows + more, cfg))
    requires Reported(rows + more, cfg, json, text, devices, total)
    ensures forall d :: |CondemnedTurns(rows, cfg, json, Some(d))| <= ResultCount(devices, d, Ended(Failed))
    ensures |CondemnedTurns(rows, cfg, json, None)| <= Count(total, Ended(Failed))
  {
    hide Reported, IsReport, Faithful, NoConflict, Condemned;
    var ledger := LedgerOf(rows + more, cfg, json, text, devices, total);
    EvidenceKeepsTurns(rows, more, cfg, json);
    forall d ensures |CondemnedTurns(rows, cfg, json, Some(d))| <= ResultCount(devices, d, Ended(Failed)) {
      CondemnedCounted(rows, more, cfg, json, text, ledger, Some(d));
    }
    CondemnedCounted(rows, more, cfg, json, text, ledger, None);
  }

  lemma CondemnedCounted(rows: set<Row>, more: set<Row>, cfg: Settings, json: Json, text: Text, ledger: Ledger,
                         device: Option<string>)
    requires AddsEvidence(more) && ledger.Keys == Components(Records(rows, cfg, json))
    requires Faithful(ledger, Executions(rows + more, cfg), cfg.now, json, text)
    ensures |CondemnedTurns(rows, cfg, json, device)| <= Tally(ledger, device, Ended(Failed), Cutoff(cfg))
  {
    hide Condemned, Has, TurnOfGroup, Candidates, Admitted, Components, Executions, Judged;
    var turns := CondemnedTurns(rows, cfg, json, device);
    forall g | g in turns ensures g in Counted(ledger, device, Ended(Failed), Cutoff(cfg)) {
      assert Entered(g, ledger[g], Executions(rows + more, cfg), cfg.now, json, text);
      CondemnedIsFailed(rows, more, cfg, json, text, g, ledger[g]);
    }
    FewerMarked(turns, Counted(ledger, device, Ended(Failed), Cutoff(cfg)));
  }

  // ----- one turn, two executions -----

  const CFG := Settings(10, 0, true, Voice)

  const BEGUN := BLANK.(interactionId := "i", schemaV1 := true, startedAt := Some(0))

  const START_ROW := Row(Start(Voice), "lamp", None, BEGUN)

  /** An execution of that turn. */
  function Ran(eventId: string, o: Outcome): Params {
    BLANK.(interactionId := "i", schemaV1 := true, executionAt := Some(1), eventId := eventId, outcome := o)
  }

  function RanRow(eventId: string, o: Outcome): Row {
    Row(Execution, "lamp", None, Ran(eventId, o))
  }

  function Rows(eventId: string, o: Outcome, o': Outcome): set<Row> {
    {START_ROW, RanRow(eventId, o), RanRow(eventId, o')}
  }

  const TURN := BLANK.(interactionId := "i", startedAt := Some(0), taskSchemaV1 := true, eligible := Some(true),
                       eligibilityKnown := Some(true))

  const RECORD := Record("lamp", TURN)

  /** The counters of one completed cohort turn. */
  function Counts(o: Outcome): Counter {
    map[Versioned := 1, Mature := 1, Ended(o) := 1]
  }

  lemma OneTurn(eventId: string, o: Outcome, o': Outcome, json: Json)
    ensures RecordAt(Rows(eventId, o, o'), CFG, json, TurnKey("lamp", "i")) == RECORD
  {
    var rows, key := Rows(eventId, o, o'), TurnKey("lamp", "i");
    assert Snapshots(rows, CFG, key) == {};
    assert START_ROW in rows && Starts(rows, CFG, key) == {BEGUN};
    hide Rows, Snapshots, Starts, Top;
    assert Bound({BEGUN}) == {} && Times(BLANK, {BEGUN}) == {0};
  }

  lemma OneRecord(eventId: string, o: Outcome, o': Outcome, json: Json)
    ensures Records(Rows(eventId, o, o'), CFG, json) == {RECORD}
    ensures Executions(Rows(eventId, o, o'), CFG) == {Exec("lamp", Ran(eventId, o)), Exec("lamp", Ran(eventId, o'))}
  {
    hide RecordAt;
    var rows, key := Rows(eventId, o, o'), TurnKey("lamp", "i");
    assert SnapshotKeys(rows, CFG) == {};
    assert START_ROW in rows && StartKeys(rows, CFG) == {key};
    OneTurn(eventId, o, o', json);
    assert RecordsAt(rows, CFG, json, {key}) == {RECORD};
    assert RanRow(eventId, o) in rows && RanRow(eventId, o') in rows;
  }

  lemma OneGroup(json: Json)
    ensures Components({RECORD}) == {{RECORD}}
    ensures DeviceOf({RECORD}) == "lamp" && TurnOfGroup({RECORD}, json) == TURN
    ensures Identifier("lamp", InteractionId, "i") in GroupIdentifiers({RECORD})
    ensures forall id <- GroupIdentifiers({RECORD}) :: id == Identifier("lamp", InteractionId, "i")
  {
    ConnectedStep({RECORD}, RECORD, RECORD);
    assert Component({RECORD}, RECORD) == {RECORD};
    assert RECORD in {RECORD};
    assert Turns({RECORD}) == {TURN};
    assert StartTimes({TURN}) == {0};
    assert IdentifierOf(RECORD, InteractionId) in Identifiers(RECORD);
    forall id | id in Identifiers(RECORD) ensures id == Identifier("lamp", InteractionId, "i") {
      match id.field { case InteractionId => case RunId => }
    }
  }

  lemma OneTally(e: Entry)
    requires e.device == "lamp" && e.turn == TURN
    ensures forall d, l :: ResultCount(map["lamp" := Counts(e.outcome)], d, l) == Tally(map[{RECORD} := e], Some(d), l, Cutoff(CFG))
    ensures forall l :: Count(Counts(e.outcome), l) == Tally(map[{RECORD} := e], None, l, Cutoff(CFG))
  {
    var none: Ledger := map[];
    assert none[{RECORD} := e] == map[{RECORD} := e];
    NothingTallied(Cutoff(CFG));
    forall l ensures l in Labels(TURN, e.outcome, Cutoff(CFG)) <==> l == Versioned || l == Mature || l == Ended(e.outcome) {
    }
    TalliedStep(none, {RECORD}, e, map[], Counts(e.outcome), Cutoff(CFG));
    forall l: Label ensures Count(Counts(e.outcome), l) == Tally(map[{RECORD} := e], None, l, Cutoff(CFG)) {
      MarkedGrows(none, {RECORD}, e, With(None, l, Cutoff(CFG)));
      LabelsAreBorne(TURN, e.outcome, Cutoff(CFG), l);
      assert Marked(none, With(None, l, Cutoff(CFG))) == {};
    }
  }

  /** A log whose records form one group is reported by that group's entry. */
  lemma SingleGroupReported(rows: set<Row>, cfg: Settings, json: Json, text: Text, log: seq<Exec>, g: set<Record>, e: Entry,
                            devices: Result, total: Counter)
    requires Elems(log) == Executions(rows, cfg) && Components(Records(rows, cfg, json)) == {g}
    requires Entered(g, e, Unique(log, json).Values, cfg.now, json, text)
    requires forall d, l :: ResultCount(devices, d, l) == Tally(map[g := e], Some(d), l, Cutoff(cfg))
    requires forall l :: Count(total, l) == Tally(map[g := e], None, l, Cutoff(cfg))
    ensures Reported(rows, cfg, json, text, devices, total)
  {
    hide Tally, ResultCount, Count, Entered, Components, Records, Executions;
    var ledger := map[g := e];
    assert Faithful(ledger, Unique(log, json).Values, cfg.now, json, text);
    assert IsReport(rows, Unique(log, json).Values, cfg, json, text, devices, total, ledger);
  }

  /** The report of that turn with outcome `o` is admissible. */
  ghost predicate MayEnd(eventId: string, a: Outcome, b: Outcome, o: Outcome, json: Json, text: Text) {
    Reported(Rows(eventId, a, b), CFG, json, text, map["lamp" := Counts(o)], Counts(o))
  }

  function Contents(kept: set<Exec>): set<Params> {
    set e | e in kept :: e.params
  }

  ghost predicate Verdict(kept: set<Exec>, text: Text, o: Outcome) {
    Judged(TURN, Admitted(TURN, Contents(kept)), text, o)
  }

  lemma OneEntry(kept: set<Exec>, eventId: string, a: Outcome, b: Outcome, o: Outcome, json: Json, text: Text)
    requires kept <= {Exec("lamp", Ran(eventId, a)), Exec("lamp", Ran(eventId, b))} && Verdict(kept, text, o)
    ensures Entered({RECORD}, Entry("lamp", TURN, o), kept, CFG.now, json, text)
  {
    hide Judged, Admitted, Candidates, TurnOfGroup, GroupIdentifiers, Ran;
    OneGroup(json);
    OneCandidates(kept, eventId, a, b);
    assert RECORD in {RECORD};
  }

  /** Any verdict on the executions one order of the log keeps is reported. */
  lemma OneTurnReported(eventId: string, a: Outcome, b: Outcome, log: seq<Exec>, o: Outcome, json: Json, text: Text)
    requires Elems(log) == {Exec("lamp", Ran(eventId, a)), Exec("lamp", Ran(eventId, b))}
    requires Verdict(Unique(log, json).Values, text, o)
    ensures MayEnd(eventId, a, b, o, json, text)
  {
    hide Entered, Components, Records, Executions, Reported, Tally, ResultCount, Count, Counts, Rows, Ran, Verdict, DeviceOf,
      TurnOfGroup, GroupIdentifiers;
    OneRecord(eventId, a, b, json);
    OneGroup(json);
    OneTally(Entry("lamp", TURN, o));
    assert Unique(log, json).Values <= Elems(log);
    OneEntry(Unique(log, json).Values, eventId, a, b, o, json, text);
    SingleGroupReported(Rows(eventId, a, b), CFG, json, text, log, {RECORD}, Entry("lamp", TURN, o),
                        map["lamp" := Counts(o)], Counts(o));
  }

  lemma OneCandidates(kept: set<Exec>, eventId: string, a: Outcome, b: Outcome)
    requires kept <= {Exec("lamp", Ran(eventId, a)), Exec("lamp", Ran(eventId, b))}
    ensures Candidates(kept, GroupIdentifiers({RECORD}), CFG.now) == Contents(kept)
  {
    OneGroup(p => 0.0);
    forall e | e in kept ensures Due(e, CFG.now) && Carries(e, Identifier("lamp", InteractionId, "i")) {
    }
  }

  /** One set of rows, two reports: of two executions with one event id, the
      order of the export decides whether the turn failed. */
  lemma ConflictChangesReport(json: Json, text: Text)
    ensures MayEnd("e", Failed, Completed, Failed, json, text) && Count(Counts(Failed), Ended(Failed)) == 1
    ensures MayEnd("e", Failed, Completed, Completed, json, text) && Count(Counts(Completed), Ended(Failed)) == 0
  {
    assert Count(Counts(Failed), Ended(Failed)) == 1 && Count(Counts(Completed), Ended(Failed)) == 0;
    hide MayEnd, Counts, Count;
    KeptEnds(Failed, Completed, json, text);
    KeptEnds(Completed, Failed, json, text);
    SameRows("e", Completed, Failed, Failed, json, text);
  }

  /** The later of two executions with one event id decides. */
  lemma KeptEnds(o: Outcome, other: Outcome, json: Json, text: Text)
    ensures MayEnd("e", other, o, o, json, text)
  {
    hide MayEnd, Judged, Admitted, Unique;
    var x, y := Exec("lamp", Ran("e", other)), Exec("lamp", Ran("e", o));
    LastKept(x, y, json);
    JudgedAlone(Ran("e", o), text);
    assert Contents({y}) == {y.params};
    assert Elems([x, y]) == {x, y};
    OneTurnReported("e", other, o, [x, y], o, json, text);
  }

  lemma SameRows(eventId: string, a: Outcome, b: Outcome, o: Outcome, json: Json, text: Text)
    ensures MayEnd(eventId, a, b, o, json, text) == MayEnd(eventId, b, a, o, json, text)
  {
    hide Reported, RanRow;
    assert Rows(eventId, a, b) == Rows(eventId, b, a);
  }

  lemma LastKept(a: Exec, b: Exec, json: Json)
    requires IdentityOf(a, json) == IdentityOf(b, json)
    ensures Unique([a, b], json).Values == {b}
  {
    assert [a, b][..1] == [a] && [a][..0] == [];
    assert Unique([a], json) == map[IdentityOf(a, json) := a];
    assert Unique([a, b], json) == map[IdentityOf(b, json) := b];
  }

  lemma JudgedAlone(p: Params, text: Text)
    requires p.evidence.OtherEvidence?
    ensures Judged(TURN, Admitted(TURN, {p}), text, p.outcome)
  {
    assert Admitted(TURN, {p}) == {p};
    Trichotomy(ByRecency(text)(p), ByRecency(text)(p));
    assert IsTop({p}, ByRecency(text), 3, p);
  }

  /** Likewise two nameless executions of one instant, one unknown and one
      without an outcome: the turn is reported as either. */
  lemma TieChangesReport(json: Json, text: Text)
    requires Injective(json)
    ensures MayEnd("", Unknown, Incomplete, Unknown, json, text)
    ensures MayEnd("", Unknown, Incomplete, Incomplete, json, text)
  {
    hide MayEnd, Judged, Admitted, Unique, Ran;
    var u, n := Exec("lamp", Ran("", Unknown)), Exec("lamp", Ran("", Incomplete));
    Nameless(u, n);
    UniqueIsSet([u, n], json);
    assert Elems([u, n]) == {u, n};
    assert Contents({u, n}) == {u.params, n.params};
    JudgedEither(u.params, n.params, text);
    OneTurnReported("", Unknown, Incomplete, [u, n], Unknown, json, text);
    OneTurnReported("", Unknown, Incomplete, [u, n], Incomplete, json, text);
  }

  lemma Nameless(u: Exec, n: Exec)
    requires u == Exec("lamp", Ran("", Unknown)) && n == Exec("lamp", Ran("", Incomplete))
    ensures NoConflict(Elems([u, n]))
  {
  }

  lemma JudgedEither(u: Params, n: Params, text: Text)
    requires u == Ran("", Unknown) && n == Ran("", Incomplete)
    ensures Judged(TURN, Admitted(TURN, {u, n}), text, Unknown) && Judged(TURN, Admitted(TURN, {u, n}), text, Incomplete)
  {
    assert Admitted(TURN, {u, n}) == {u, n};
    Trichotomy(ByRecency(text)(u), ByRecency(text)(n));
    assert ByRecency(text)(u) == ByRecency(text)(n);
    assert IsTop({u, n}, ByRecency(text), 3, u) && IsTop({u, n}, ByRecency(text), 3, n);
  }
}
