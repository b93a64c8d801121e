/** Matching execution evidence to a merged turn, and the turn's outcome. */
module ExecutionEvidence {
  import opened Common
  import opened Ranking
  import opened TaskRecords
  import opened TurnGroups

  // ----- unique executions -----

  /** An execution's event id names it; without one its JSON text does. */
  datatype Identity = Named(device: string, eventId: string) | Anonymous(device: string, text: real)

  function IdentityOf(e: Exec, json: Json): Identity {
    if e.params.eventId != "" then Named(e.device, e.params.eventId) else Anonymous(e.device, json(e.params))
  }

  /** Later executions overwrite earlier ones of the same identity. */
  function Unique(executions: seq<Exec>, json: Json): (u: map<Identity, Exec>)
    ensures forall k <- u.Keys :: u[k] in executions && IdentityOf(u[k], json) == k
    ensures forall e <- executions :: IdentityOf(e, json) in u
  {
    if executions == [] then map[] else
      var last := executions[|executions| - 1];
      Unique(executions[..|executions| - 1], json)[IdentityOf(last, json) := last]
  }

  method Deduplicate(executions: seq<Exec>, json: Json) returns (unique: map<Identity, Exec>)
    ensures unique == Unique(executions, json)
  {
    unique := map[];
    for i := 0 to |executions|
      invariant unique == Unique(executions[..i], json)
    {
      assert executions[..i + 1][..i] == executions[..i];
      unique := unique[IdentityOf(executions[i], json) := executions[i]];
    }
    assert executions[..|executions|] == executions;
  }

  /** No device reports one nonempty event id with two different contents. */
  ghost predicate NoConflict(executions: set<Exec>) {
    forall a, b | a in executions && b in executions ::
      a.device == b.device && a.params.eventId == b.params.eventId && a.params.eventId != "" ==> a == b
  }

  /** Without conflicts the unique executions are just the set of executions. */
  lemma UniqueIsSet(executions: seq<Exec>, json: Json)
    requires Injective(json) && NoConflict(Elems(executions))
    ensures Unique(executions, json).Values == Elems(executions)
  {
    var u := Unique(executions, json);
    forall e | e in executions ensures e in u.Values {
      var k := IdentityOf(e, json);
      assert u[k] in Elems(executions) && e in Elems(executions);
      assert u[k] == e;
    }
  }

  /** Exactly then: of two conflicting executions one is always lost. */
  lemma UniqueIsSetExactly(executions: seq<Exec>, json: Json)
    requires Injective(json)
    ensures NoConflict(Elems(executions)) <==> Unique(executions, json).Values == Elems(executions)
  {
    var u := Unique(executions, json);
    if NoConflict(Elems(executions)) {
      UniqueIsSet(executions, json);
    } else {
      var a, b :| a in Elems(executions) && b in Elems(executions) && a.device == b.device
                  && a.params.eventId == b.params.eventId && a.params.eventId != "" && a != b;
      var k := IdentityOf(a, json);
      assert k == IdentityOf(b, json);
      assert forall x <- u.Values :: IdentityOf(x, json) == k ==> x == u[k];
      assert a !in u.Values || b !in u.Values;
    }
  }

  /** A conflict makes the result depend on the order of the export. */
  lemma ConflictDependsOnOrder(json: Json)
    ensures var a := Exec("lamp", BLANK.(eventId := "e1", executionAt := Some(1), outcome := Completed));
            var b := Exec("lamp", BLANK.(eventId := "e1", executionAt := Some(1), outcome := Failed));
            Unique([a, b], json).Values == {b} && Unique([b, a], json).Values == {a}
  {
    var a := Exec("lamp", BLANK.(eventId := "e1", executionAt := Some(1), outcome := Completed));
    var b := Exec("lamp", BLANK.(eventId := "e1", executionAt := Some(1), outcome := Failed));
    forall x: Exec, y: Exec | IdentityOf(x, json) == IdentityOf(y, json)
      ensures Unique([x, y], json).Values == {y}
    {
      assert [x, y][..1] == [x] && [x][..0] == [];
      assert Unique([x], json) == map[IdentityOf(x, json) := x];
      assert Unique([x, y], json) == map[IdentityOf(y, json) := y];
    }
    assert IdentityOf(a, json) == IdentityOf(b, json);
  }

  // ----- matching -----

  predicate Due(e: Exec, now: int) {
    e.params.executionAt.Some? && e.params.executionAt.value <= now
  }

  predicate Carries(e: Exec, id: Identifier) {
    id.value != "" && id == Identifier(e.device, id.field, ValueOf(e.params, id.field))
  }

  /** The evidence for a turn: due executions carrying one of its identifiers. */
  function Candidates(executions: set<Exec>, ids: set<Identifier>, now: int): set<Params> {
    set e | e in executions && Due(e, now) && exists id :: id in ids && Carries(e, id) :: e.params
  }

  type Index = map<Identifier, map<Identity, Params>>

  ghost predicate Indexed(unique: map<Identity, Exec>, done: set<Identity>, now: int, index: Index)
    requires done <= unique.Keys
  {
    && (forall id, k :: Filed(index, id, k) ==>
          k in done && Due(unique[k], now) && Carries(unique[k], id) && index[id][k] == unique[k].params)
    && forall id, k :: k in done && Due(unique[k], now) && Carries(unique[k], id) ==> Filed(index, id, k)
  }

  function Put(index: Index, id: Identifier, k: Identity, p: Params): Index {
    index[id := (if id in index then index[id] else map[])[k := p]]
  }

  /** Files every due execution under its run id and its interaction id. */
  method BuildIndex(unique: map<Identity, Exec>, now: int) returns (index: Index)
    ensures Indexed(unique, unique.Keys, now, index)
  {
    index := map[];
    var left := unique.Keys;
    while left != {}
      invariant left <= unique.Keys
      invariant Indexed(unique, unique.Keys - left, now, index)
      decreases left
    {
      var k :| k in left;
      var e := unique[k];
      ghost var before := index;
      if Due(e, now) {
        if e.params.runId != "" {
          index := Put(index, Identifier(e.device, RunId, e.params.runId), k, e.params);
        }
        if e.params.interactionId != "" {
          index := Put(index, Identifier(e.device, InteractionId, e.params.interactionId), k, e.params);
        }
      }
      IndexedStep(unique, unique.Keys - left, now, before, k, index);
      assert unique.Keys - (left - {k}) == unique.Keys - left + {k};
      left := left - {k};
    }
    assert unique.Keys - left == unique.Keys;
  }

  predicate Filed(index: Index, id: Identifier, k: Identity) {
    id in index && k in index[id]
  }

  lemma PutAt(index: Index, id: Identifier, k: Identity, p: Params)
    ensures forall i, j :: Filed(Put(index, id, k, p), i, j) <==> Filed(index, i, j) || (i == id && j == k)
    ensures forall i, j :: Filed(Put(index, id, k, p), i, j) ==>
              Put(index, id, k, p)[i][j] == if i == id && j == k then p else index[i][j]
  {
  }

  lemma IndexedStep(unique: map<Identity, Exec>, done: set<Identity>, now: int, index: Index, k: Identity, index': Index)
    requires done <= unique.Keys && k in unique && Indexed(unique, done, now, index)
    requires
      var e := unique[k];
      var run := if Due(e, now) && e.params.runId != ""
                 then Put(index, Identifier(e.device, RunId, e.params.runId), k, e.params) else index;
      index' == if Due(e, now) && e.params.interactionId != ""
                then Put(run, Identifier(e.device, InteractionId, e.params.interactionId), k, e.params) else run
    ensures Indexed(unique, done + {k}, now, index')
  {
    hide Put;
    var e := unique[k];
    PutAt(index, Identifier(e.device, RunId, e.params.runId), k, e.params);
    PutAt(Put(index, Identifier(e.device, RunId, e.params.runId), k, e.params),
          Identifier(e.device, InteractionId, e.params.interactionId), k, e.params);
    PutAt(index, Identifier(e.device, InteractionId, e.params.interactionId), k, e.params);
    forall id | Carries(e, id)
      ensures id == Identifier(e.device, RunId, e.params.runId) || id == Identifier(e.device, InteractionId, e.params.interactionId)
    {
      match id.field { case RunId => case InteractionId => }
    }
  }

  /** Unites the index entries of all identifiers of a turn. */
  method Match(unique: map<Identity, Exec>, index: Index, ids: set<Identifier>, now: int) returns (candidates: set<Params>)
    requires Indexed(unique, unique.Keys, now, index)
    ensures candidates == Candidates(unique.Values, ids, now)
  {
    candidates := {};
    var left := ids;
    while left != {}
      invariant left <= ids
      invariant candidates == Candidates(unique.Values, ids - left, now)
      decreases left
    {
      var id :| id in left;
      var found := if id in index then index[id].Values else {};
      MatchOne(unique, index, id, now);
      CandidatesUnion(unique.Values, ids - left, id, now);
      assert ids - (left - {id}) == ids - left + {id};
      candidates := candidates + found;
      left := left - {id};
    }
    assert ids - {} == ids;
  }

  lemma MatchOne(unique: map<Identity, Exec>, index: Index, id: Identifier, now: int)
    requires Indexed(unique, unique.Keys, now, index)
    ensures (if id in index then index[id].Values else {}) == Candidates(unique.Values, {id}, now)
  {
    var found := if id in index then index[id].Values else {};
    forall p | p in Candidates(unique.Values, {id}, now) ensures p in found {
      var e :| e in unique.Values && Due(e, now) && Carries(e, id) && e.params == p;
      var k :| k in unique && unique[k] == e;
      assert k in index[id];
    }
    forall p | p in found ensures p in Candidates(unique.Values, {id}, now) {
      var k :| k in index[id] && index[id][k] == p;
      assert unique[k] in unique.Values && Carries(unique[k], id) && id in {id};
    }
  }

  lemma CandidatesUnion(executions: set<Exec>, ids: set<Identifier>, id: Identifier, now: int)
    ensures Candidates(executions, ids + {id}, now) == Candidates(executions, ids, now) + Candidates(executions, {id}, now)
  {
    forall p | p in Candidates(executions, ids, now) + Candidates(executions, {id}, now)
      ensures p in Candidates(executions, ids + {id}, now)
    {
      if p in Candidates(executions, ids, now) {
        var e, i :| e in executions && Due(e, now) && i in ids && Carries(e, i) && e.params == p;
        assert i in ids + {id};
      } else {
        var e, i :| e in executions && Due(e, now) && i in {id} && Carries(e, i) && e.params == p;
        assert i in ids + {id};
      }
    }
    forall p | p in Candidates(executions, ids + {id}, now)
      ensures p in Candidates(executions, ids, now) + Candidates(executions, {id}, now)
    {
      var e, i :| e in executions && Due(e, now) && i in ids + {id} && Carries(e, i) && e.params == p;
      assert i in ids || i in {id};
    }
  }

  // ----- the outcome of a turn -----

  const HARNESS_FOLLOW_UPS: set<Evidence> :=
    {HarnessTurnDone, HarnessTurnSummary, HarnessTurnError, HarnessCorrelatedSummary, HarnessQuestionOpen, DispatchError}

  /** Realtime turns accept only realtime evidence. */
  function Relevant(turn: Params, c: set<Params>): set<Params> {
    if turn.realtime then set e | e in c && e.evidence.RealtimeTurnDone? else c
  }

  predicate Delegated(c: set<Params>) {
    exists e :: e in c && e.evidence.HarnessDelegated?
  }

  /** Once a turn was delegated, only harness evidence counts, and the
      delegation itself only until something follows it. */
  function AfterDelegation(c: set<Params>): set<Params> {
    if Delegated(c) then
      var followed := set e | e in c && (e.evidence in HARNESS_FOLLOW_UPS || e.evidence.ObservationLost?);
      if followed != {} then followed else set e | e in c && e.evidence.HarnessDelegated?
    else c
  }

  predicate Terminal(o: Outcome) {
    o.Completed? || o.Failed? || o.Cancelled?
  }

  /** Losing the transport never hides a terminal event. */
  function Observed(c: set<Params>): set<Params> {
    if exists e :: e in c && Terminal(e.outcome) then set e | e in c && !e.evidence.ObservationLost? else c
  }

  function Admitted(turn: Params, c: set<Params>): set<Params> {
    Observed(AfterDelegation(Relevant(turn, c)))
  }

  function Priority(o: Outcome): int {
    match o
    case Failed => 3
    case Cancelled => 2
    case Completed => 1
    case Unknown => 0
    case Incomplete => 0
  }

  /** Position of an event id in the order of all strings. */
  type Text = string -> real

  function ByRecency(text: Text): Params -> Rank {
    (e: Params) => [(if e.executionAt.Some? then e.executionAt.value else 0) as real, Priority(e.outcome) as real, text(e.eventId)]
  }

  predicate AnyOutcome(c: set<Params>, o: Outcome) {
    exists e :: e in c && e.outcome == o
  }

  /** `o` is an outcome the report may give a turn with admitted evidence `a`. */
  ghost predicate Judged(turn: Params, a: set<Params>, text: Text, o: Outcome) {
    if AnyOutcome(a, Failed) then o == Failed
    else if AnyOutcome(a, Cancelled) then o == Cancelled
    else if a == {} then o == if turn.failureReason then Failed else Incomplete
    else exists e :: IsTop(a, ByRecency(text), 3, e) && o == e.outcome
  }

  method Judge(turn: Params, candidates: set<Params>, text: Text) returns (o: Outcome)
    ensures Judged(turn, Admitted(turn, candidates), text, o)
  {
    var c := if turn.realtime then set e | e in candidates && e.evidence.RealtimeTurnDone? else candidates;
    if exists e :: e in c && e.evidence.HarnessDelegated? {
      c := set e | e in c && (e.evidence in HARNESS_FOLLOW_UPS || e.evidence.ObservationLost? || e.evidence.HarnessDelegated?);
      if exists e :: e in c && !e.evidence.HarnessDelegated? {
        c := set e | e in c && !e.evidence.HarnessDelegated?;
      }
    }
    if Delegated(Relevant(turn, candidates)) {
      DelegationSteps(Relevant(turn, candidates));
    }
    assert c == AfterDelegation(Relevant(turn, candidates));
    if exists e :: e in c && Terminal(e.outcome) {
      c := set e | e in c && !e.evidence.ObservationLost?;
    }
    assert c == Admitted(turn, candidates);
    o := Incomplete;
    if c != {} {
      var selected := Max(c, ByRecency(text), 3);
      o := selected.outcome;
    }
    if exists e :: e in c && e.outcome == Failed {
      o := Failed;
    } else if exists e :: e in c && e.outcome == Cancelled {
      o := Cancelled;
    }
    if c == {} && turn.failureReason {
      o := Failed;
    }
  }

  /** Filtering in two steps, as the report does, is `AfterDelegation`. */
  lemma DelegationSteps(c: set<Params>)
    requires Delegated(c)
    ensures
      var kept := set e | e in c && (e.evidence in HARNESS_FOLLOW_UPS || e.evidence.ObservationLost? || e.evidence.HarnessDelegated?);
      var followed := set e | e in kept && !e.evidence.HarnessDelegated?;
      AfterDelegation(c) == if exists e :: e in kept && !e.evidence.HarnessDelegated? then followed else kept
  {
    var kept := set e | e in c && (e.evidence in HARNESS_FOLLOW_UPS || e.evidence.ObservationLost? || e.evidence.HarnessDelegated?);
    var followed := set e | e in kept && !e.evidence.HarnessDelegated?;
    assert followed == set e | e in c && (e.evidence in HARNESS_FOLLOW_UPS || e.evidence.ObservationLost?);
    if exists e :: e in kept && !e.evidence.HarnessDelegated? {
      var e :| e in kept && !e.evidence.HarnessDelegated?;
      assert e in followed;
    } else {
      assert followed == {};
      assert kept == set e | e in c && e.evidence.HarnessDelegated?;
    }
  }

  /** No two nameless executions of one device fall on the same instant, one
      with an unknown and one without an outcome. */
  ghost predicate NoTie(executions: set<Exec>) {
    forall a, b | a in executions && b in executions ::
      && a.device == b.device && a.params.eventId == "" && b.params.eventId == ""
      && a.params.executionAt == b.params.executionAt
      ==> !(a.params.outcome == Unknown && b.params.outcome == Incomplete)
  }

  ghost predicate OneDeviceIds(ids: set<Identifier>) {
    forall a, b | a in ids && b in ids :: a.device == b.device
  }

  /** The outcome is a function of the set of executions. */
  lemma JudgedUnique(turn: Params, executions: set<Exec>, ids: set<Identifier>, now: int, text: Text, o: Outcome, o': Outcome)
    requires Injective(text) && NoConflict(executions) && NoTie(executions) && OneDeviceIds(ids)
    requires Judged(turn, Admitted(turn, Candidates(executions, ids, now)), text, o)
    requires Judged(turn, Admitted(turn, Candidates(executions, ids, now)), text, o')
    ensures o == o'
  {
    hide NoConflict, NoTie, Candidates, Injective, OneDeviceIds, Admitted;
    var a := Admitted(turn, Candidates(executions, ids, now));
    if !AnyOutcome(a, Failed) && !AnyOutcome(a, Cancelled) && a != {} {
      var rank := ByRecency(text);
      var e :| IsTop(a, rank, 3, e) && o == e.outcome;
      var f :| IsTop(a, rank, 3, f) && o' == f.outcome;
      Trichotomy(rank(e), rank(f));
      assert rank(e) == rank(f);
      AdmittedSubset(turn, Candidates(executions, ids, now));
      EqualRanksAgree(executions, ids, now, text, e, f);
    }
  }

  lemma EqualRanksAgree(executions: set<Exec>, ids: set<Identifier>, now: int, text: Text, e: Params, f: Params)
    requires Injective(text) && NoConflict(executions) && NoTie(executions) && OneDeviceIds(ids)
    requires e in Candidates(executions, ids, now) && f in Candidates(executions, ids, now)
    requires ByRecency(text)(e) == ByRecency(text)(f)
    ensures e.outcome == f.outcome
  {
    var r, q := ByRecency(text)(e), ByRecency(text)(f);
    assert r[0] == q[0] && r[1] == q[1] && r[2] == q[2];
    assert e.eventId == f.eventId;
    var x, i :| x in executions && Due(x, now) && i in ids && Carries(x, i) && x.params == e;
    var y, j :| y in executions && Due(y, now) && j in ids && Carries(y, j) && y.params == f;
    assert i.device == j.device;
  }

  lemma AdmittedSubset(turn: Params, c: set<Params>)
    ensures Admitted(turn, c) <= c
  {
  }

  /** A tie between a nameless unknown and a nameless missing outcome is real:
      both answers are admissible, so the report depends on iteration order. */
  lemma TieDependsOnOrder(text: Text)
    ensures var c := {BLANK.(executionAt := Some(5), outcome := Unknown), BLANK.(executionAt := Some(5), outcome := Incomplete)};
            Judged(BLANK, Admitted(BLANK, c), text, Unknown) && Judged(BLANK, Admitted(BLANK, c), text, Incomplete)
  {
    var u := BLANK.(executionAt := Some(5), outcome := Unknown);
    var n := BLANK.(executionAt := Some(5), outcome := Incomplete);
    var a := Admitted(BLANK, {u, n});
    assert a == {u, n};
    Trichotomy(ByRecency(text)(u), ByRecency(text)(n));
    assert ByRecency(text)(u) == ByRecency(text)(n);
    assert IsTop(a, ByRecency(text), 3, u) && IsTop(a, ByRecency(text), 3, n);
  }

  /** Two latest pieces of evidence, one unknown and one without an outcome. */
  ghost predicate Undecided(a: set<Params>, text: Text) {
    exists e, f :: IsTop(a, ByRecency(text), 3, e) && IsTop(a, ByRecency(text), 3, f)
                   && e.outcome == Unknown && f.outcome == Incomplete
  }

  ghost predicate OneVerdict(turn: Params, a: set<Params>, text: Text) {
    forall o, o' | Judged(turn, a, text, o) && Judged(turn, a, text, o') :: o == o'
  }

  /** The verdict on admitted evidence is unique exactly when some of it failed,
      some was cancelled, or the latest of it is decided. */
  lemma OneVerdictExactly(turn: Params, a: set<Params>, text: Text)
    ensures OneVerdict(turn, a, text) <==> AnyOutcome(a, Failed) || AnyOutcome(a, Cancelled) || !Undecided(a, text)
  {
    var rank := ByRecency(text);
    if !AnyOutcome(a, Failed) && !AnyOutcome(a, Cancelled) {
      if Undecided(a, text) {
        var e, f :| IsTop(a, rank, 3, e) && IsTop(a, rank, 3, f) && e.outcome == Unknown && f.outcome == Incomplete;
        assert Judged(turn, a, text, Unknown) && Judged(turn, a, text, Incomplete);
      } else {
        forall o, o' | Judged(turn, a, text, o) && Judged(turn, a, text, o') ensures o == o' {
          if a != {} {
            var e :| IsTop(a, rank, 3, e) && o == e.outcome;
            var f :| IsTop(a, rank, 3, f) && o' == f.outcome;
            SamePriority(a, text, e, f);
          }
        }
      }
    }
  }

  lemma SamePriority(a: set<Params>, text: Text, e: Params, f: Params)
    requires IsTop(a, ByRecency(text), 3, e) && IsTop(a, ByRecency(text), 3, f)
    ensures Priority(e.outcome) == Priority(f.outcome)
  {
    var r, q := ByRecency(text)(e), ByRecency(text)(f);
    Trichotomy(r, q);
    assert r == q;
    assert r[1] == q[1];
  }

  // ----- failure is sticky -----

  predicate Fails(e: Params) {
    e.outcome.Failed? && !e.evidence.HarnessDelegated? && !e.evidence.ObservationLost?
  }

  /** Evidence that fails a turn keeps failing it under any further evidence
      that is not a delegation. */
  lemma FailureSticky(turn: Params, c: set<Params>, more: set<Params>, f: Params, text: Text, o: Outcome)
    requires f in Admitted(turn, c) && Fails(f)
    requires forall e <- more :: !e.evidence.HarnessDelegated?
    requires Judged(turn, Admitted(turn, c + more), text, o)
    ensures o == Failed
  {
    var relevant := Relevant(turn, c + more);
    assert f in relevant;
    if Delegated(relevant) {
      assert Delegated(Relevant(turn, c));
      assert f in AfterDelegation(Relevant(turn, c));
    }
    assert f in AfterDelegation(relevant);
    assert f in Admitted(turn, c + more);
  }

  /** When a delegation is added to a turn failed by other evidence, the turn
      stays failed exactly if it was answered in realtime, was delegated already,
      has failing harness evidence, is delegated by a failing event that nothing
      follows, or has a failure reason and nothing after the delegation but lost
      observations, one of them terminal. */
  lemma DelegationKeepsFailure(turn: Params, c: set<Params>, d: Params, f: Params, text: Text, o: Outcome)
    requires d.evidence.HarnessDelegated?
    requires f in Admitted(turn, c) && Fails(f)
    requires Judged(turn, Admitted(turn, c + {d}), text, o)
    ensures o == Failed <==>
      || turn.realtime
      || Delegated(c)
      || (exists g :: g in c && g.outcome.Failed? && g.evidence in HARNESS_FOLLOW_UPS)
      || (d.outcome.Failed? && !Followed(c))
      || (turn.failureReason && (forall g <- c :: g.evidence !in HARNESS_FOLLOW_UPS)
          && exists g :: g in c && g.evidence.ObservationLost? && Terminal(g.outcome))
  {
    var a := Admitted(turn, c + {d});
    if turn.realtime || Delegated(c) {
      DelegationAddsNothing(turn, c, d, f);
    } else {
      DelegatedFailures(turn, c, d);
      NothingLeft(turn, c, d);
    }
  }

  /** When a first delegation leaves no evidence: only lost observations follow
      it, and one of them, being terminal, hides them all. */
  lemma NothingLeft(turn: Params, c: set<Params>, d: Params)
    requires d.evidence.HarnessDelegated? && !turn.realtime && !Delegated(c)
    ensures Admitted(turn, c + {d}) == {} <==>
              (forall g <- c :: g.evidence !in HARNESS_FOLLOW_UPS)
              && exists g :: g in c && g.evidence.ObservationLost? && Terminal(g.outcome)
  {
    var all := c + {d};
    assert d in all && Delegated(all);
    var followed := set x | x in all && (x.evidence in HARNESS_FOLLOW_UPS || x.evidence.ObservationLost?);
    if Followed(c) {
      var e :| e in c && (e.evidence in HARNESS_FOLLOW_UPS || e.evidence.ObservationLost?);
      assert e in followed && AfterDelegation(all) == followed;
      if g :| g in c && g.evidence in HARNESS_FOLLOW_UPS {
        assert g in Observed(followed);
      } else if g :| g in c && g.evidence.ObservationLost? && Terminal(g.outcome) {
        assert g in followed;
        assert Observed(followed) == {};
      } else {
        assert e in Observed(followed);
      }
    } else {
      assert AfterDelegation(all) == {d};
      assert d in Observed({d});
    }
  }

  /** Something follows a delegation: harness evidence, or its loss. */
  predicate Followed(c: set<Params>) {
    exists e :: e in c && (e.evidence in HARNESS_FOLLOW_UPS || e.evidence.ObservationLost?)
  }

  lemma DelegationAddsNothing(turn: Params, c: set<Params>, d: Params, f: Params)
    requires d.evidence.HarnessDelegated? && f in Admitted(turn, c) && Fails(f) && (turn.realtime || Delegated(c))
    ensures f in Admitted(turn, c + {d})
  {
    if turn.realtime {
      assert Relevant(turn, c + {d}) == Relevant(turn, c);
    } else {
      assert Delegated(c + {d});
      assert f in AfterDelegation(c) && f in AfterDelegation(c + {d});
    }
  }

  /** Which failures a first delegation leaves in evidence. */
  lemma DelegatedFailures(turn: Params, c: set<Params>, d: Params)
    requires d.evidence.HarnessDelegated? && !turn.realtime && !Delegated(c)
    ensures AnyOutcome(Admitted(turn, c + {d}), Failed) <==>
              (exists g :: g in c && g.outcome.Failed? && g.evidence in HARNESS_FOLLOW_UPS)
              || (d.outcome.Failed? && !Followed(c))
  {
    var all := c + {d};
    assert d in all && Delegated(all);
    if Followed(c) {
      var e :| e in c && (e.evidence in HARNESS_FOLLOW_UPS || e.evidence.ObservationLost?);
      assert e in all;
      var followed := set x | x in all && (x.evidence in HARNESS_FOLLOW_UPS || x.evidence.ObservationLost?);
      assert e in followed && AfterDelegation(all) == followed;
      if g :| g in c && g.outcome.Failed? && g.evidence in HARNESS_FOLLOW_UPS {
        assert g in followed && g in Observed(followed);
      }
    } else {
      assert AfterDelegation(all) == {d};
    }
  }

  /** A failed turn that a delegation unfails. */
  lemma DelegationUnfails(text: Text)
    ensures var f := BLANK.(executionAt := Some(1), outcome := Failed);
            var d := BLANK.(executionAt := Some(2), outcome := Unknown, evidence := HarnessDelegated);
            (forall o | Judged(BLANK, Admitted(BLANK, {f}), text, o) :: o == Failed)
            && Judged(BLANK, Admitted(BLANK, {f, d}), text, Unknown)
            && !Judged(BLANK, Admitted(BLANK, {f, d}), text, Failed)
  {
    var f := BLANK.(executionAt := Some(1), outcome := Failed);
    var d := BLANK.(executionAt := Some(2), outcome := Unknown, evidence := HarnessDelegated);
    assert f in Admitted(BLANK, {f});
    assert d in {f, d};
    assert Admitted(BLANK, {f, d}) == {d};
    Trichotomy(ByRecency(text)(d), ByRecency(text)(d));
    assert IsTop({d}, ByRecency(text), 3, d);
  }

  /** Over a growing log: without conflicts and without new delegations, a turn
      failed by such evidence stays failed. */
  lemma FailureStaysInLog(turn: Params, executions: set<Exec>, more: set<Exec>, ids: set<Identifier>, now: int,
                          f: Params, text: Text, o: Outcome)
    requires f in Admitted(turn, Candidates(executions, ids, now)) && Fails(f)
    requires forall e <- more :: !e.params.evidence.HarnessDelegated?
    requires Judged(turn, Admitted(turn, Candidates(executions + more, ids, now)), text, o)
    ensures o == Failed
  {
    CandidatesGrow(executions, more, ids, now);
    hide Candidates, Admitted, Judged, Fails;
    FailureSticky(turn, Candidates(executions, ids, now), Candidates(more, ids, now), f, text, o);
  }

  lemma CandidatesGrow(executions: set<Exec>, more: set<Exec>, ids: set<Identifier>, now: int)
    ensures Candidates(executions + more, ids, now) == Candidates(executions, ids, now) + Candidates(more, ids, now)
    ensures forall p <- Candidates(more, ids, now) :: exists e :: e in more && e.params == p
  {
    hide Carries, Due;
  }
}
