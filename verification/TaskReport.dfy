/** The completion report: every merged turn is labelled and counted per device. */
module TaskReport {
  import opened Common
  import opened Ranking
  import opened TaskRecords
  import opened TurnGroups
  import opened ExecutionEvidence

  // ----- the turn a group stands for -----

  function Bit(b: bool): real {
    if b then 1.0 else 0.0
  }

  /** Realtime first, then proven tasks, then the latest revision. */
  function ByProof(json: Json): Params -> Rank {
    (p: Params) => [Bit(p.realtime), Bit(p.taskSchemaV1), Bit(p.eligible == Some(true)), RevisionOf(p) as real, json(p)]
  }

  lemma ByProofUniform(json: Json)
    ensures Uniform(ByProof(json), 5)
  {
  }

  lemma ByProofStrict(json: Json)
    requires Injective(json)
    ensures Strict(ByProof(json), 5)
  {
    forall x, y | ByProof(json)(x) == ByProof(json)(y) ensures x == y {
      assert ByProof(json)(x)[4] == ByProof(json)(y)[4];
    }
  }

  function Turns(group: set<Record>): set<Params> {
    set r | r in group :: r.turn
  }

  function StartTimes(turns: set<Params>): set<int> {
    set t | t in turns && t.startedAt.Some? :: t.startedAt.value
  }

  ghost function TurnOfGroup(group: set<Record>, json: Json): Params
    requires group != {}
  {
    ByProofUniform(json);
    assert Turns(group) != {} by {
      var r :| r in group;
      assert r.turn in Turns(group);
    }
    var turn := Top(Turns(group), ByProof(json), 5);
    if StartTimes(Turns(group)) == {} then turn else turn.(startedAt := Some(Least(StartTimes(Turns(group)))))
  }

  function GroupIdentifiers(group: set<Record>): set<Identifier> {
    set r, id | r in group && id in Identifiers(r) :: id
  }

  ghost function DeviceOf(group: set<Record>): string
    requires group != {}
  {
    var r :| r in group; r.device
  }

  method PickTurn(group: seq<Record>, json: Json) returns (turn: Params)
    requires Injective(json) && Elems(group) != {}
    ensures turn == TurnOfGroup(Elems(group), json)
  {
    ByProofStrict(json);
    var turns := Turns(Elems(group));
    assert turns != {} by {
      var r :| r in Elems(group);
      assert r.turn in turns;
    }
    turn := Max(turns, ByProof(json), 5);
    TopUnique(turns, ByProof(json), 5, turn);
    var times := StartTimes(turns);
    if times != {} {
      var first := Min(times);
      turn := turn.(startedAt := Some(first));
    }
  }

  // ----- labels -----

  datatype Label =
    | Legacy
    | Versioned
    | Ineligible
    | EligibilityUnknown
    | MissingStart
    | FreshPending
    | Mature
    | Ended(outcome: Outcome)

  predicate Eligible(turn: Params) {
    turn.taskSchemaV1 && turn.eligible != Some(false)
  }

  predicate Settled(turn: Params, cutoff: int) {
    turn.startedAt.Some? && turn.startedAt.value <= cutoff
  }

  /** The meaning of each label. */
  predicate Bears(turn: Params, outcome: Outcome, cutoff: int, l: Label) {
    match l
    case Legacy => !turn.taskSchemaV1
    case Versioned => turn.taskSchemaV1
    case Ineligible => turn.taskSchemaV1 && turn.eligible == Some(false)
    case EligibilityUnknown => Eligible(turn) && turn.eligibilityKnown != Some(true)
    case MissingStart => Eligible(turn) && turn.startedAt.None?
    case FreshPending => Eligible(turn) && turn.startedAt.Some? && !Settled(turn, cutoff)
    case Mature => Eligible(turn) && Settled(turn, cutoff)
    case Ended(o) => Eligible(turn) && Settled(turn, cutoff) && o == outcome
  }

  type Counter = map<Label, nat>

  function Count(c: Counter, l: Label): nat {
    if l in c then c[l] else 0
  }

  function Bump(c: Counter, l: Label): Counter {
    c[l := Count(c, l) + 1]
  }

  /** The labels of a turn, in the order they are counted. */
  function Labels(turn: Params, outcome: Outcome, cutoff: int): set<Label> {
    if !turn.taskSchemaV1 then {} + {Legacy}
    else
      var versioned := {} + {Versioned};
      if turn.eligible == Some(false) then versioned + {Ineligible}
      else
        var eligible := if turn.eligibilityKnown != Some(true) then versioned + {EligibilityUnknown} else versioned;
        if turn.startedAt.None? then eligible + {MissingStart}
        else if turn.startedAt.value > cutoff then eligible + {FreshPending}
        else eligible + {Mature} + {Ended(outcome)}
  }

  lemma LabelsAreBorne(turn: Params, outcome: Outcome, cutoff: int, l: Label)
    ensures l in Labels(turn, outcome, cutoff) <==> Bears(turn, outcome, cutoff, l)
  {
  }

  /** Each of the labels is counted once more, and no other. */
  ghost predicate CountedOnce(c: Counter, c': Counter, labels: set<Label>) {
    forall l :: Count(c', l) == Count(c, l) + if l in labels then 1 else 0
  }

  /** One turn of the counting loop. */
  method CountTurn(counts: Counter, turn: Params, candidates: set<Params>, cutoff: int, text: Text)
    returns (counts': Counter, ghost outcome: Outcome)
    ensures Judged(turn, Admitted(turn, candidates), text, outcome)
    ensures CountedOnce(counts, counts', Labels(turn, outcome, cutoff))
  {
    var judged := Judge(turn, candidates, text);
    outcome := judged;
    counts' := CountLabels(counts, turn, judged, cutoff);
  }

  method CountLabels(counts: Counter, turn: Params, outcome: Outcome, cutoff: int) returns (counts': Counter)
    ensures CountedOnce(counts, counts', Labels(turn, outcome, cutoff))
  {
    assert CountedOnce(counts, counts, {});
    hide CountedOnce, Count, Bump;
    counts' := counts;
    ghost var done := {};
    if !turn.taskSchemaV1 {
      counts', done := BumpNext(counts, counts', done, Legacy);
      return;
    }
    counts', done := BumpNext(counts, counts', done, Versioned);
    if turn.eligible == Some(false) {
      counts', done := BumpNext(counts, counts', done, Ineligible);
      return;
    }
    if turn.eligibilityKnown != Some(true) {
      counts', done := BumpNext(counts, counts', done, EligibilityUnknown);
    }
    if turn.startedAt.None? {
      counts', done := BumpNext(counts, counts', done, MissingStart);
      return;
    }
    if turn.startedAt.value > cutoff {
      counts', done := BumpNext(counts, counts', done, FreshPending);
      return;
    }
    counts', done := BumpNext(counts, counts', done, Mature);
    counts', done := BumpNext(counts, counts', done, Ended(outcome));
  }

  /** `counts[label] += 1`. */
  method BumpNext(ghost start: Counter, counts: Counter, ghost done: set<Label>, l: Label)
    returns (counts': Counter, ghost done': set<Label>)
    requires CountedOnce(start, counts, done) && l !in done
    ensures done' == done + {l} && counts' == Bump(counts, l) && CountedOnce(start, counts', done')
  {
    done' := done + {l};
    counts' := Bump(counts, l);
  }

  // ----- the counted turns -----

  /** What the counting loop sees of one merged turn. */
  datatype Entry = Entry(device: string, turn: Params, outcome: Outcome)

  type Ledger = map<set<Record>, Entry>

  predicate Has(e: Entry, cutoff: int, l: Label) {
    Bears(e.turn, e.outcome, cutoff, l)
  }

  predicate Of(e: Entry, device: Option<string>) {
    device.Some? ==> e.device == device.value
  }

  function With(device: Option<string>, l: Label, cutoff: int): Entry -> bool {
    (e: Entry) => Of(e, device) && Has(e, cutoff, l)
  }

  /** The merged turns of `device` (of all devices, for None) with label `l`. */
  ghost function Counted(ledger: Ledger, device: Option<string>, l: Label, cutoff: int): set<set<Record>> {
    Marked(ledger, With(device, l, cutoff))
  }

  ghost function Tally(ledger: Ledger, device: Option<string>, l: Label, cutoff: int): nat {
    |Counted(ledger, device, l, cutoff)|
  }

  /** The merged turns of one device, or of all. */
  ghost function Owned(ledger: Ledger, device: Option<string>): set<set<Record>> {
    Marked(ledger, (e: Entry) => Of(e, device))
  }

  type Result = map<string, Counter>

  function CounterOf(devices: Result, d: string): Counter {
    if d in devices then devices[d] else map[]
  }

  function ResultCount(devices: Result, d: string, l: Label): nat {
    Count(CounterOf(devices, d), l)
  }

  ghost predicate Tallied(ledger: Ledger, devices: Result, cutoff: int) {
    && (forall d, l :: ResultCount(devices, d, l) == Tally(ledger, Some(d), l, cutoff))
    && forall g <- ledger.Keys :: ledger[g].device in devices
  }

  /** The entry is what the report must make of this group. */
  ghost predicate Entered(g: set<Record>, e: Entry, executions: set<Exec>, now: int, json: Json, text: Text) {
    && g != {}
    && e.device == DeviceOf(g)
    && e.turn == TurnOfGroup(g, json)
    && Judged(e.turn, Admitted(e.turn, Candidates(executions, GroupIdentifiers(g), now)), text, e.outcome)
  }

  ghost predicate Faithful(ledger: Ledger, executions: set<Exec>, now: int, json: Json, text: Text) {
    forall g <- ledger.Keys :: Entered(g, ledger[g], executions, now, json, text)
  }

  lemma NothingTallied(cutoff: int)
    ensures Tallied(map[], map[], cutoff)
  {
  }

  lemma TalliedStep(ledger: Ledger, g: set<Record>, e: Entry, devices: Result, own: Counter, cutoff: int)
    requires g !in ledger && Tallied(ledger, devices, cutoff)
    requires CountedOnce(CounterOf(devices, e.device), own, Labels(e.turn, e.outcome, cutoff))
    ensures Tallied(ledger[g := e], devices[e.device := own], cutoff)
  {
    var devices' := devices[e.device := own];
    forall d: string, l: Label ensures ResultCount(devices', d, l) == Tally(ledger[g := e], Some(d), l, cutoff) {
      MarkedGrows(ledger, g, e, With(Some(d), l, cutoff));
      assert ResultCount(devices, d, l) == Tally(ledger, Some(d), l, cutoff);
      LabelsAreBorne(e.turn, e.outcome, cutoff, l);
    }
  }

  lemma GroupDevice(records: set<Record>, group: seq<Record>)
    requires group != [] && Elems(group) in Components(records)
    ensures Elems(group) != {} && group[0].device == DeviceOf(Elems(group))
  {
    assert group[0] in Elems(group);
    var r :| r in Elems(group) && r.device == DeviceOf(Elems(group));
    OneDevice(records, Elems(group), group[0], r);
  }

  /** One merged turn: choose its record, match its evidence, count it. */
  method CountGroup(ghost records: set<Record>, group: seq<Record>, unique: map<Identity, Exec>, index: Index,
                    now: int, cutoff: int, json: Json, text: Text, devices: Result, ghost ledger: Ledger)
    returns (devices': Result, ghost e: Entry)
    requires Injective(json)
    requires group != [] && Elems(group) in Components(records) && Elems(group) !in ledger
    requires Indexed(unique, unique.Keys, now, index)
    requires Tallied(ledger, devices, cutoff)
    ensures Entered(Elems(group), e, unique.Values, now, json, text)
    ensures Tallied(ledger[Elems(group) := e], devices', cutoff)
  {
    GroupDevice(records, group);
    var device := group[0].device;
    var turn := PickTurn(group, json);
    var candidates := Match(unique, index, GroupIdentifiers(Elems(group)), now);
    var own, o := CountTurn(CounterOf(devices, device), turn, candidates, cutoff, text);
    e := Entry(device, turn, o);
    TalliedStep(ledger, Elems(group), e, devices, own, cutoff);
    devices' := devices[device := own];
  }

  /** The counting loop over the merged groups. */
  method CountGroups(ghost records: set<Record>, groups: map<nat, seq<Record>>, unique: map<Identity, Exec>, index: Index,
                     now: int, cutoff: int, json: Json, text: Text)
    returns (devices: Result, ghost ledger: Ledger)
    requires Injective(json)
    requires IsPartition(records, groups)
    requires Indexed(unique, unique.Keys, now, index)
    ensures ledger.Keys == Components(records)
    ensures Faithful(ledger, unique.Values, now, json, text)
    ensures Tallied(ledger, devices, cutoff)
  {
    hide Entered, Tallied, Indexed;
    NothingTallied(cutoff);
    devices, ledger := map[], map[];
    var left := groups.Keys;
    while left != {}
      invariant left <= groups.Keys
      invariant ledger.Keys == set r | r in groups.Keys && r !in left :: Elems(groups[r])
      invariant Faithful(ledger, unique.Values, now, json, text)
      invariant Tallied(ledger, devices, cutoff)
      decreases left
    {
      var r :| r in left;
      ghost var e: Entry;
      devices, e := CountGroup(records, groups[r], unique, index, now, cutoff, json, text, devices, ledger);
      ledger := ledger[Elems(groups[r]) := e];
      left := left - {r};
    }
  }

  function Within(ds: set<string>, l: Label, cutoff: int): Entry -> bool {
    (e: Entry) => e.device in ds && Has(e, cutoff, l)
  }

  function Add(a: Counter, b: Counter): (c: Counter)
    ensures forall l :: Count(c, l) == Count(a, l) + Count(b, l)
  {
    map l | l in a.Keys + b.Keys :: Count(a, l) + Count(b, l)
  }

  lemma AddDevice(ledger: Ledger, devices: Result, cutoff: int, total: Counter, done: set<string>, d: string)
    requires Tallied(ledger, devices, cutoff) && d in devices && d !in done
    requires forall l :: Count(total, l) == |Marked(ledger, Within(done, l, cutoff))|
    ensures forall l :: Count(Add(total, devices[d]), l) == |Marked(ledger, Within(done + {d}, l, cutoff))|
  {
    forall l: Label ensures Count(Add(total, devices[d]), l) == |Marked(ledger, Within(done + {d}, l, cutoff))| {
      assert ResultCount(devices, d, l) == Tally(ledger, Some(d), l, cutoff);
      assert Count(total, l) == |Marked(ledger, Within(done, l, cutoff))|;
      MarkedSplit(ledger, Within(done + {d}, l, cutoff), Within(done, l, cutoff), With(Some(d), l, cutoff));
    }
  }

  /** Sums the device counters. */
  method Aggregate(ghost ledger: Ledger, devices: Result, ghost cutoff: int) returns (total: Counter)
    requires Tallied(ledger, devices, cutoff)
    ensures forall l :: Count(total, l) == Tally(ledger, None, l, cutoff)
  {
    total := map[];
    var left := devices.Keys;
    ghost var done: set<string> := {};
    while left != {}
      invariant done + left == devices.Keys && done !! left
      invariant forall l :: Count(total, l) == |Marked(ledger, Within(done, l, cutoff))|
      decreases left
    {
      var d :| d in left;
      AddDevice(ledger, devices, cutoff, total, done, d);
      total := Add(total, devices[d]);
      left := left - {d};
      done := done + {d};
    }
    forall l: Label ensures Count(total, l) == Tally(ledger, None, l, cutoff) {
      MarkedSame(ledger, Within(done, l, cutoff), With(None, l, cutoff));
    }
  }

  // ----- the whole report -----

  function Cutoff(cfg: Settings): int {
    cfg.now - cfg.settleSeconds * 1000
  }

  /** `devices` and `total` report this set of rows, judged on `executions`. */
  ghost predicate IsReport(rows: set<Row>, executions: set<Exec>, cfg: Settings, json: Json, text: Text,
                           devices: Result, total: Counter, ledger: Ledger)
  {
    && ledger.Keys == Components(Records(rows, cfg, json))
    && Faithful(ledger, executions, cfg.now, json, text)
    && (forall d, l :: ResultCount(devices, d, l) == Tally(ledger, Some(d), l, Cutoff(cfg)))
    && forall l :: Count(total, l) == Tally(ledger, None, l, Cutoff(cfg))
  }

  /** The counts a report of these rows may show: some order of the execution
      log decides which of several executions with one identity is kept. */
  ghost predicate Reported(rows: set<Row>, cfg: Settings, json: Json, text: Text, devices: Result, total: Counter) {
    exists log: seq<Exec>, ledger: Ledger ::
      Elems(log) == Executions(rows, cfg)
      && IsReport(rows, Unique(log, json).Values, cfg, json, text, devices, total, ledger)
  }

  method Report(rows: seq<Row>, cfg: Settings, json: Json, text: Text) returns (devices: Result, total: Counter)
    requires Injective(json)
    ensures Reported(Elems(rows), cfg, json, text, devices, total)
  {
    var snapshots, starts, log := Collect(rows, cfg, json);
    var records := BuildRecords(Elems(rows), cfg, json, snapshots, starts, log);
    var groups := Merge(records);
    var unique := Deduplicate(log, json);
    var index := BuildIndex(unique, cfg.now);
    ghost var ledger: Ledger;
    devices, ledger := CountGroups(Elems(records), groups, unique, index, cfg.now, Cutoff(cfg), json, text);
    total := Aggregate(ledger, devices, Cutoff(cfg));
    assert IsReport(Elems(rows), Unique(log, json).Values, cfg, json, text, devices, total, ledger);
  }

  // ----- what the report guarantees -----

  /** Two exports holding the same set of rows, in any order and with any
      repetitions, have the same counts. */
  lemma OrderAndReplayInvariant(rows: seq<Row>, rows': seq<Row>, cfg: Settings, json: Json, text: Text,
                                devices: Result, total: Counter, devices': Result, total': Counter)
    requires Injective(json) && Injective(text) && Elems(rows) == Elems(rows')
    requires NoConflict(Executions(Elems(rows), cfg)) && NoTie(Executions(Elems(rows), cfg))
    requires Reported(Elems(rows), cfg, json, text, devices, total)
    requires Reported(Elems(rows'), cfg, json, text, devices', total')
    ensures forall d, l :: ResultCount(devices, d, l) == ResultCount(devices', d, l)
    ensures forall l :: Count(total, l) == Count(total', l)
  {
    hide IsReport, Faithful, Reported;
    var ledger := LedgerOf(Elems(rows), cfg, json, text, devices, total);
    var ledger' := LedgerOf(Elems(rows), cfg, json, text, devices', total');
    LedgerUnique(Records(Elems(rows), cfg, json), ledger, ledger', Executions(Elems(rows), cfg), cfg.now, json, text);
    assert forall d, l :: ResultCount(devices, d, l) == Tally(ledger, Some(d), l, Cutoff(cfg));
  }

  /** Without conflicting executions the ledger rests on the set of executions alone. */
  lemma LedgerOf(rows: set<Row>, cfg: Settings, json: Json, text: Text, devices: Result, total: Counter)
    returns (ledger: Ledger)
    requires Injective(json) && NoConflict(Executions(rows, cfg))
    requires Reported(rows, cfg, json, text, devices, total)
    ensures IsReport(rows, Executions(rows, cfg), cfg, json, text, devices, total, ledger)
    ensures ledger.Keys == Components(Records(rows, cfg, json))
    ensures Faithful(ledger, Executions(rows, cfg), cfg.now, json, text)
    ensures forall d, l :: ResultCount(devices, d, l) == Tally(ledger, Some(d), l, Cutoff(cfg))
    ensures forall l :: Count(total, l) == Tally(ledger, None, l, Cutoff(cfg))
  {
    var log: seq<Exec>, l: Ledger :|
      Elems(log) == Executions(rows, cfg)
      && IsReport(rows, Unique(log, json).Values, cfg, json, text, devices, total, l);
    hide Injective, NoConflict, Tally, Entered;
    UniqueIsSet(log, json);
    ledger := l;
  }

  lemma LedgerUnique(s: set<Record>, ledger: Ledger, ledger': Ledger, executions: set<Exec>, now: int, json: Json, text: Text)
    requires Injective(text) && NoConflict(executions) && NoTie(executions)
    requires ledger.Keys == Components(s) == ledger'.Keys
    requires Faithful(ledger, executions, now, json, text) && Faithful(ledger', executions, now, json, text)
    ensures ledger == ledger'
  {
    hide Entered, Components;
    forall g | g in ledger.Keys ensures ledger[g] == ledger'[g] {
      EntryUnique(s, g, ledger[g], ledger'[g], executions, now, json, text);
    }
  }

  lemma EntryUnique(s: set<Record>, g: set<Record>, x: Entry, y: Entry, executions: set<Exec>, now: int, json: Json, text: Text)
    requires Injective(text) && g in Components(s) && NoConflict(executions) && NoTie(executions)
    requires Entered(g, x, executions, now, json, text) && Entered(g, y, executions, now, json, text)
    ensures x == y
  {
    GroupIdsOneDevice(s, g);
    JudgedUnique(x.turn, executions, GroupIdentifiers(g), now, text, x.outcome, y.outcome);
  }

  lemma GroupIdsOneDevice(s: set<Record>, g: set<Record>)
    requires g in Components(s)
    ensures OneDeviceIds(GroupIdentifiers(g))
  {
    forall i, j | i in GroupIdentifiers(g) && j in GroupIdentifiers(g) ensures i.device == j.device {
      var a :| a in g && i in Identifiers(a);
      var b :| b in g && j in Identifiers(b);
      OneDevice(s, g, a, b);
    }
  }

  predicate Balanced(c: Counter) {
    && Count(c, Versioned) == Count(c, Ineligible) + Count(c, MissingStart) + Count(c, FreshPending) + Count(c, Mature)
    && Count(c, Mature) == Count(c, Ended(Completed)) + Count(c, Ended(Failed)) + Count(c, Ended(Cancelled))
                           + Count(c, Ended(Unknown)) + Count(c, Ended(Incomplete))
  }

  /** The merged groups that hold a record of the device. */
  ghost function GroupsOf(records: set<Record>, d: string): set<set<Record>> {
    set g | g in Components(records) && exists r :: r in g && r.device == d
  }

  lemma OwnedAreGroups(records: set<Record>, ledger: Ledger, executions: set<Exec>, now: int, json: Json, text: Text, d: string)
    requires ledger.Keys == Components(records) && Faithful(ledger, executions, now, json, text)
    ensures Owned(ledger, Some(d)) == GroupsOf(records, d)
  {
    hide Components;
    forall g | g in Components(records) ensures g in Owned(ledger, Some(d)) <==> exists r :: r in g && r.device == d {
      assert Entered(g, ledger[g], executions, now, json, text);
      forall a, b | a in g && b in g ensures a.device == b.device {
        OneDevice(records, g, a, b);
      }
    }
  }

  /** Every merged turn is counted exactly once at every level, per device and in
      total: as many turns are counted as there are merged groups. */
  lemma Conservation(rows: set<Row>, cfg: Settings, json: Json, text: Text, devices: Result, total: Counter)
    requires Reported(rows, cfg, json, text, devices, total)
    ensures forall d :: Balanced(CounterOf(devices, d))
    ensures Balanced(total)
    ensures |Components(Records(rows, cfg, json))| == Count(total, Legacy) + Count(total, Versioned)
    ensures forall d :: |GroupsOf(Records(rows, cfg, json), d)|
                     == Count(CounterOf(devices, d), Legacy) + Count(CounterOf(devices, d), Versioned)
  {
    hide Balanced, GroupsOf, Entered;
    var log: seq<Exec>, ledger: Ledger :|
      Elems(log) == Executions(rows, cfg)
      && IsReport(rows, Unique(log, json).Values, cfg, json, text, devices, total, ledger);
    forall d
      ensures Balanced(CounterOf(devices, d))
      ensures |GroupsOf(Records(rows, cfg, json), d)|
           == Count(CounterOf(devices, d), Legacy) + Count(CounterOf(devices, d), Versioned)
    {
      CounterBalances(ledger, Some(d), CounterOf(devices, d), Cutoff(cfg));
      OwnedAreGroups(Records(rows, cfg, json), ledger, Unique(log, json).Values, cfg.now, json, text, d);
    }
    CounterBalances(ledger, None, total, Cutoff(cfg));
    assert Owned(ledger, None) == ledger.Keys;
  }

  lemma CounterBalances(ledger: Ledger, device: Option<string>, c: Counter, cutoff: int)
    requires forall l :: Count(c, l) == Tally(ledger, device, l, cutoff)
    ensures Balanced(c)
    ensures |Owned(ledger, device)| == Count(c, Legacy) + Count(c, Versioned)
  {
    hide Tally;
    TalliesBalance(ledger, device, cutoff);
  }

  lemma TalliesBalance(ledger: Ledger, device: Option<string>, cutoff: int)
    ensures |Owned(ledger, device)| == Tally(ledger, device, Legacy, cutoff) + Tally(ledger, device, Versioned, cutoff)
    ensures Tally(ledger, device, Versioned, cutoff)
         == Tally(ledger, device, Ineligible, cutoff) + Tally(ledger, device, MissingStart, cutoff)
            + Tally(ledger, device, FreshPending, cutoff) + Tally(ledger, device, Mature, cutoff)
    ensures Tally(ledger, device, Mature, cutoff)
         == Tally(ledger, device, Ended(Completed), cutoff) + Tally(ledger, device, Ended(Failed), cutoff)
            + Tally(ledger, device, Ended(Cancelled), cutoff) + Tally(ledger, device, Ended(Unknown), cutoff)
            + Tally(ledger, device, Ended(Incomplete), cutoff)
  {
    MarkedSplit(ledger, (e: Entry) => Of(e, device), With(device, Legacy, cutoff), With(device, Versioned, cutoff));
    SplitVersioned(ledger, device, cutoff);
    SplitMature(ledger, device, cutoff);
  }

  lemma SplitVersioned(ledger: Ledger, device: Option<string>, cutoff: int)
    ensures Tally(ledger, device, Versioned, cutoff)
         == Tally(ledger, device, Ineligible, cutoff) + Tally(ledger, device, MissingStart, cutoff)
            + Tally(ledger, device, FreshPending, cutoff) + Tally(ledger, device, Mature, cutoff)
  {
    var eligible := (e: Entry) => Of(e, device) && Eligible(e.turn);
    var started := (e: Entry) => Of(e, device) && Eligible(e.turn) && e.turn.startedAt.Some?;
    MarkedSplit(ledger, With(device, Versioned, cutoff), With(device, Ineligible, cutoff), eligible);
    MarkedSplit(ledger, eligible, With(device, MissingStart, cutoff), started);
    MarkedSplit(ledger, started, With(device, FreshPending, cutoff), With(device, Mature, cutoff));
  }

  lemma SplitMature(ledger: Ledger, device: Option<string>, cutoff: int)
    ensures Tally(ledger, device, Mature, cutoff)
         == Tally(ledger, device, Ended(Completed), cutoff) + Tally(ledger, device, Ended(Failed), cutoff)
            + Tally(ledger, device, Ended(Cancelled), cutoff) + Tally(ledger, device, Ended(Unknown), cutoff)
            + Tally(ledger, device, Ended(Incomplete), cutoff)
  {
    var terminal := (e: Entry) => Of(e, device) && Has(e, cutoff, Mature) && Terminal(e.outcome);
    var open := (e: Entry) => Of(e, device) && Has(e, cutoff, Mature) && !Terminal(e.outcome);
    var stopped := (e: Entry) => Of(e, device) && Has(e, cutoff, Mature) && (e.outcome.Failed? || e.outcome.Cancelled?);
    MarkedSplit(ledger, With(device, Mature, cutoff), terminal, open);
    MarkedSplit(ledger, terminal, With(device, Ended(Completed), cutoff), stopped);
    MarkedSplit(ledger, stopped, With(device, Ended(Failed), cutoff), With(device, Ended(Cancelled), cutoff));
    MarkedSplit(ledger, open, With(device, Ended(Unknown), cutoff), With(device, Ended(Incomplete), cutoff));
  }

  /** How counts compare when turns settle longer. */
  ghost predicate OnlyDelayed(c: Counter, longer: Counter) {
    && (forall l: Label | l in {Legacy, Versioned, Ineligible, EligibilityUnknown, MissingStart} :: Count(longer, l) == Count(c, l))
    && (forall l: Label | l == Mature || l.Ended? :: Count(longer, l) <= Count(c, l))
    && Count(longer, FreshPending) + Count(longer, Mature) == Count(c, FreshPending) + Count(c, Mature)
  }

  lemma SettlingKeepsTurns(rows: set<Row>, cfg: Settings, seconds: int, json: Json)
    ensures Executions(rows, cfg.(settleSeconds := seconds)) == Executions(rows, cfg)
    ensures Records(rows, cfg.(settleSeconds := seconds), json) == Records(rows, cfg, json)
  {
    var cfg' := cfg.(settleSeconds := seconds);
    assert SnapshotKeys(rows, cfg') == SnapshotKeys(rows, cfg);
    assert StartKeys(rows, cfg') == StartKeys(rows, cfg);
    forall key: TurnKey ensures RecordAt(rows, cfg', json, key) == RecordAt(rows, cfg, json, key) {
      assert Snapshots(rows, cfg', key) == Snapshots(rows, cfg, key);
      assert Starts(rows, cfg', key) == Starts(rows, cfg, key);
    }
    assert RecordsAt(rows, cfg', json, SnapshotKeys(rows, cfg) + StartKeys(rows, cfg))
        == RecordsAt(rows, cfg, json, SnapshotKeys(rows, cfg) + StartKeys(rows, cfg));
  }

  /** Raising the settling time only moves turns from mature to fresh. */
  lemma SettlingLongerOnlyDelays(rows: set<Row>, cfg: Settings, longer: int, json: Json, text: Text,
                                 devices: Result, total: Counter, devices': Result, total': Counter)
    requires Injective(json) && Injective(text) && cfg.settleSeconds <= longer
    requires NoConflict(Executions(rows, cfg)) && NoTie(Executions(rows, cfg))
    requires Reported(rows, cfg, json, text, devices, total)
    requires Reported(rows, cfg.(settleSeconds := longer), json, text, devices', total')
    ensures forall d :: OnlyDelayed(CounterOf(devices, d), CounterOf(devices', d))
    ensures OnlyDelayed(total, total')
  {
    hide OnlyDelayed, Tally, IsReport, Faithful, Reported, Components, Records, Executions;
    var cfg', e := cfg.(settleSeconds := longer), Executions(rows, cfg);
    SettlingKeepsTurns(rows, cfg, longer, json);
    var ledger := LedgerOf(rows, cfg, json, text, devices, total);
    var ledger' := LedgerOf(rows, cfg', json, text, devices', total');
    LedgerUnique(Records(rows, cfg, json), ledger, ledger', e, cfg.now, json, text);
    forall d ensures OnlyDelayed(CounterOf(devices, d), CounterOf(devices', d)) {
      CounterDelays(ledger, Some(d), Cutoff(cfg), Cutoff(cfg'), CounterOf(devices, d), CounterOf(devices', d));
    }
    CounterDelays(ledger, None, Cutoff(cfg), Cutoff(cfg'), total, total');
  }

  lemma CounterDelays(ledger: Ledger, device: Option<string>, cutoff: int, earlier: int, c: Counter, longer: Counter)
    requires earlier <= cutoff
    requires forall l :: Count(c, l) == Tally(ledger, device, l, cutoff)
    requires forall l :: Count(longer, l) == Tally(ledger, device, l, earlier)
    ensures OnlyDelayed(c, longer)
  {
    SettlingOnlyDelays(ledger, device, cutoff, earlier);
    forall l: Label | l == Mature || l.Ended? ensures Count(longer, l) <= Count(c, l) {
      FewerMarked(Counted(ledger, device, l, earlier), Counted(ledger, device, l, cutoff));
    }
  }

  lemma FewerMarked<T>(a: set<T>, b: set<T>)
    requires a <= b
    ensures |a| <= |b|
  {
    assert b == a + (b - a);
  }

  /** Settling longer (an earlier cutoff) only moves turns from mature to fresh. */
  lemma SettlingOnlyDelays(ledger: Ledger, device: Option<string>, cutoff: int, earlier: int)
    requires earlier <= cutoff
    ensures forall l | l in {Legacy, Versioned, Ineligible, EligibilityUnknown, MissingStart} ::
              Counted(ledger, device, l, earlier) == Counted(ledger, device, l, cutoff)
    ensures forall l: Label | l == Mature || l.Ended? ::
              Counted(ledger, device, l, earlier) <= Counted(ledger, device, l, cutoff)
    ensures Counted(ledger, device, FreshPending, earlier) >= Counted(ledger, device, FreshPending, cutoff)
    ensures Tally(ledger, device, FreshPending, earlier) + Tally(ledger, device, Mature, earlier)
         == Tally(ledger, device, FreshPending, cutoff) + Tally(ledger, device, Mature, cutoff)
  {
    var started := (e: Entry) => Of(e, device) && Eligible(e.turn) && e.turn.startedAt.Some?;
    MarkedSplit(ledger, started, With(device, FreshPending, cutoff), With(device, Mature, cutoff));
    MarkedSplit(ledger, started, With(device, FreshPending, earlier), With(device, Mature, earlier));
    forall l | l in {Legacy, Versioned, Ineligible, EligibilityUnknown, MissingStart}
      ensures Counted(ledger, device, l, earlier) == Counted(ledger, device, l, cutoff)
    {
      MarkedSame(ledger, With(device, l, earlier), With(device, l, cutoff));
    }
  }
}
