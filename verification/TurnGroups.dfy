/** Merging the records of one turn: an in-place union-find with path halving
    computes the connected components of "same device and a shared interaction
    or run identifier". */
module TurnGroups {
  import opened Common
  import opened TaskRecords

  datatype Field = InteractionId | RunId

  datatype Identifier = Identifier(device: string, field: Field, value: string)

  function ValueOf(p: Params, field: Field): string {
    match field
    case InteractionId => p.interactionId
    case RunId => p.runId
  }

  function IdentifierOf(r: Record, field: Field): Identifier {
    Identifier(r.device, field, ValueOf(r.turn, field))
  }

  /** The nonempty identifiers a record carries. */
  function Identifiers(r: Record): set<Identifier> {
    set field: Field | ValueOf(r.turn, field) != "" :: IdentifierOf(r, field)
  }

  predicate Shares(a: Record, b: Record) {
    exists field: Field :: ValueOf(a.turn, field) != "" && IdentifierOf(a, field) == IdentifierOf(b, field)
  }

  // ----- connectedness -----

  ghost predicate Path(s: set<Record>, p: seq<Record>) {
    && p != []
    && (forall i :: 0 <= i < |p| ==> p[i] in s)
    && forall i :: 0 < i < |p| ==> Shares(p[i - 1], p[i])
  }

  ghost predicate Joins(s: set<Record>, p: seq<Record>, a: Record, b: Record) {
    Path(s, p) && p[0] == a && p[|p| - 1] == b
  }

  ghost predicate Connected(s: set<Record>, a: Record, b: Record) {
    exists p :: Joins(s, p, a, b)
  }

  lemma ConnectedStep(s: set<Record>, a: Record, b: Record)
    requires a in s && b in s && (a == b || Shares(a, b))
    ensures Connected(s, a, b)
  {
    assert Joins(s, if a == b then [a] else [a, b], a, b);
  }

  lemma ConnectedSymmetric(s: set<Record>, a: Record, b: Record)
    requires Connected(s, a, b)
    ensures Connected(s, b, a)
  {
    var p :| Joins(s, p, a, b);
    var q := seq(|p|, i requires 0 <= i < |p| => p[|p| - 1 - i]);
    forall i | 0 < i < |q| ensures Shares(q[i - 1], q[i]) {
      assert Shares(p[|p| - 1 - i], p[|p| - i]);
    }
    assert Joins(s, q, b, a);
  }

  lemma ConnectedTransitive(s: set<Record>, a: Record, b: Record, c: Record)
    requires Connected(s, a, b) && Connected(s, b, c)
    ensures Connected(s, a, c)
  {
    var p :| Joins(s, p, a, b);
    var q :| Joins(s, q, b, c);
    var w := p + q[1..];
    assert Joins(s, w, a, c);
  }

  /** Anything every link preserves is the same along a whole path. */
  lemma {:induction false} ConnectedPreserves<T>(s: set<Record>, p: seq<Record>, f: Record -> T)
    requires Path(s, p)
    requires forall a, b | a in s && b in s && Shares(a, b) :: f(a) == f(b)
    ensures f(p[0]) == f(p[|p| - 1])
  {
    if |p| > 1 {
      assert Path(s, p[1..]);
      ConnectedPreserves(s, p[1..], f);
      assert Shares(p[0], p[1]);
    }
  }

  ghost function Component(s: set<Record>, a: Record): set<Record> {
    set b | b in s && Connected(s, a, b)
  }

  /** The merged turns of a set of records: its connected components. */
  ghost function Components(s: set<Record>): set<set<Record>> {
    set a | a in s :: Component(s, a)
  }

  lemma ComponentsEqual(s: set<Record>, a: Record, b: Record)
    requires a in s && b in s
    ensures Connected(s, a, b) <==> Component(s, a) == Component(s, b)
  {
    if Connected(s, a, b) {
      ConnectedSymmetric(s, a, b);
      forall c | c in s ensures Connected(s, a, c) <==> Connected(s, b, c) {
        if Connected(s, a, c) { ConnectedTransitive(s, b, a, c); }
        if Connected(s, b, c) { ConnectedTransitive(s, a, b, c); }
      }
    } else {
      ConnectedStep(s, b, b);
      assert b in Component(s, b) && b !in Component(s, a);
    }
  }

  /** Merged groups never cross devices. */
  lemma OneDevice(s: set<Record>, group: set<Record>, a: Record, b: Record)
    requires group in Components(s) && a in group && b in group
    ensures a.device == b.device
  {
    var c :| c in s && group == Component(s, c);
    var p :| Joins(s, p, c, a);
    var q :| Joins(s, q, c, b);
    ConnectedPreserves(s, p, (r: Record) => r.device);
    ConnectedPreserves(s, q, (r: Record) => r.device);
  }

  /** Two merged groups never share an identifier, so they are disjoint, and
      together they hold every record. */
  lemma GroupsPartition(s: set<Record>, g: set<Record>, h: set<Record>)
    requires g in Components(s) && h in Components(s) && g != h
    ensures forall a, b | a in g && b in h :: !Shares(a, b) && a != b
    ensures forall a <- s :: a in Component(s, a) && Component(s, a) in Components(s)
  {
    var c :| c in s && g == Component(s, c);
    var d :| d in s && h == Component(s, d);
    forall a, b | a in g && b in h ensures !Shares(a, b) && a != b {
      if Shares(a, b) || a == b {
        ConnectedStep(s, a, b);
        ConnectedTransitive(s, c, a, b);
        ConnectedSymmetric(s, d, b);
        ConnectedTransitive(s, c, b, d);
        ComponentsEqual(s, c, d);
      }
    }
    forall a | a in s ensures a in Component(s, a) {
      ConnectedStep(s, a, a);
    }
  }

  // ----- the parent forest -----

  /** `rep` names the root of every index and `dist` decreases along parents,
      so following parents always ends at that root. */
  ghost predicate Forest(parents: seq<nat>, rep: seq<nat>, dist: seq<nat>) {
    && |parents| == |rep| == |dist|
    && (forall i :: 0 <= i < |parents| ==> parents[i] < |parents| && rep[i] < |parents|)
    && (forall i :: 0 <= i < |parents| ==> rep[parents[i]] == rep[i])
    && (forall i :: 0 <= i < |parents| ==> parents[rep[i]] == rep[i] && rep[rep[i]] == rep[i])
    && (forall i :: 0 <= i < |parents| ==> (parents[i] == i <==> rep[i] == i))
    && (forall i :: 0 <= i < |parents| && parents[i] != i ==> dist[parents[i]] < dist[i])
  }

  /** Pointing an index at its grandparent changes no root. */
  lemma Halve(parents: seq<nat>, rep: seq<nat>, dist: seq<nat>, i: nat)
    requires Forest(parents, rep, dist) && i < |parents| && parents[i] != i
    ensures Forest(parents[i := parents[parents[i]]], rep, dist)
    ensures rep[parents[parents[i]]] == rep[i]
    ensures dist[parents[parents[i]]] < dist[i]
  {
    var p := parents[i];
    assert rep[p] == rep[i] && dist[p] < dist[i];
    assert rep[parents[p]] == rep[p];
    if parents[p] != p {
      assert dist[parents[p]] < dist[p];
    }
  }

  /** Path halving: returns the root of `index`, and leaves every root as it was. */
  method Root(parents: array<nat>, index: nat, ghost rep: seq<nat>, ghost dist: seq<nat>) returns (root: nat)
    requires Forest(parents[..], rep, dist) && index < parents.Length
    modifies parents
    ensures Forest(parents[..], rep, dist)
    ensures root == rep[index]
  {
    root := index;
    while parents[root] != root
      invariant Forest(parents[..], rep, dist)
      invariant root < parents.Length && rep[root] == rep[index]
      decreases dist[root]
    {
      ghost var was := parents[..];
      Halve(was, rep, dist, root);
      assert was[root] < |was|;
      parents[root] := parents[parents[root]];
      assert parents[..] == was[root := was[was[root]]];
      root := parents[root];
    }
    assert parents[..][root] == root;
  }

  /** The forest after hanging root `a` under root `b`. */
  ghost function Rehung(rep: seq<nat>, a: nat, b: nat): seq<nat> {
    seq(|rep|, i requires 0 <= i < |rep| => if rep[i] == a then b else rep[i])
  }

  ghost function Deeper(rep: seq<nat>, dist: seq<nat>, a: nat): seq<nat>
    requires |rep| == |dist|
  {
    seq(|dist|, i requires 0 <= i < |dist| => if rep[i] == a then dist[i] + 1 else dist[i])
  }

  /** Zero distance at roots keeps every union acyclic. */
  ghost predicate Grounded(rep: seq<nat>, dist: seq<nat>) {
    |rep| == |dist| && forall i :: 0 <= i < |rep| && rep[i] == i ==> dist[i] == 0
  }

  lemma HangRoot(parents: seq<nat>, rep: seq<nat>, dist: seq<nat>, a: nat, b: nat)
    requires Forest(parents, rep, dist) && Grounded(rep, dist)
    requires a < |parents| && b < |parents| && rep[a] == a && rep[b] == b
    ensures a != b ==> Forest(parents[a := b], Rehung(rep, a, b), Deeper(rep, dist, a))
    ensures a != b ==> Grounded(Rehung(rep, a, b), Deeper(rep, dist, a))
    ensures a == b ==> parents[a := b] == parents && Rehung(rep, a, b) == rep
  {
  }

  // ----- merging -----

  /** Same root means connected, for the links made so far. */
  ghost predicate Sound(records: seq<Record>, rep: seq<nat>) {
    && |rep| == |records|
    && forall i, j :: 0 <= i < |rep| && 0 <= j < |rep| && rep[i] == rep[j] ==>
         Connected(Elems(records), records[i], records[j])
  }

  /** Every recorded owner carries the identifier it owns. */
  ghost predicate OwnersCarry(records: seq<Record>, owners: map<Identifier, nat>) {
    forall id <- owners.Keys :: owners[id] < |records| && id in Identifiers(records[owners[id]])
  }

  /** Record `i` has been joined with the owner of its identifier in `field`. */
  ghost predicate Joined(records: seq<Record>, owners: map<Identifier, nat>, rep: seq<nat>, i: nat, field: Field)
    requires |rep| == |records| && i < |records| && OwnersCarry(records, owners)
  {
    ValueOf(records[i].turn, field) != "" ==>
      IdentifierOf(records[i], field) in owners && rep[i] == rep[owners[IdentifierOf(records[i], field)]]
  }

  lemma SoundAfterHang(records: seq<Record>, rep: seq<nat>, x: nat, y: nat)
    requires Sound(records, rep) && x < |rep| && y < |rep|
    requires Shares(records[x], records[y])
    ensures Sound(records, Rehung(rep, rep[x], rep[y]))
  {
    var s := Elems(records);
    var a, b := rep[x], rep[y];
    ConnectedStep(s, records[x], records[y]);
    ConnectedSymmetric(s, records[x], records[y]);
    forall i, j | 0 <= i < |rep| && 0 <= j < |rep| && Rehung(rep, a, b)[i] == Rehung(rep, a, b)[j]
      ensures Connected(s, records[i], records[j])
    {
      if rep[i] != rep[j] {
        if rep[i] == a {
          ConnectedTransitive(s, records[i], records[x], records[y]);
          ConnectedTransitive(s, records[i], records[y], records[j]);
        } else {
          ConnectedTransitive(s, records[i], records[y], records[x]);
          ConnectedTransitive(s, records[i], records[x], records[j]);
        }
      }
    }
  }

  /** Hangs the root of `x` under the root of `y`. */
  method Union(parents: array<nat>, x: nat, y: nat, ghost rep: seq<nat>, ghost dist: seq<nat>)
    returns (ghost dist': seq<nat>)
    requires x < parents.Length && y < parents.Length
    requires Forest(parents[..], rep, dist) && Grounded(rep, dist)
    modifies parents
    ensures Forest(parents[..], Rehung(rep, rep[x], rep[y]), dist') && Grounded(Rehung(rep, rep[x], rep[y]), dist')
  {
    var b := Root(parents, y, rep, dist);
    var a := Root(parents, x, rep, dist);
    ghost var was := parents[..];
    assert rep[a] == a && rep[b] == b;
    HangRoot(was, rep, dist, a, b);
    parents[a] := b;
    assert parents[..] == was[a := b];
    dist' := if a == b then dist else Deeper(rep, dist, a);
  }

  ghost predicate AllJoined(records: seq<Record>, owners: map<Identifier, nat>, rep: seq<nat>, upTo: nat, f: Field)
    requires |rep| == |records| && upTo <= |records| && OwnersCarry(records, owners)
  {
    forall i :: 0 <= i < upTo ==> Joined(records, owners, rep, i, f)
  }

  /** Hanging joins nothing apart, and a new owner agrees with the old one. */
  lemma JoinedAfterHang(records: seq<Record>, owners: map<Identifier, nat>, rep: seq<nat>, index: nat, id: Identifier,
                        i: nat, f: Field)
    requires |rep| == |records| && OwnersCarry(records, owners)
    requires index < |records| && id in Identifiers(records[index])
    requires i < |records| && Joined(records, owners, rep, i, f)
    requires forall k :: 0 <= k < |rep| ==> rep[k] < |rep|
    ensures OwnersCarry(records, owners[id := index])
    ensures id in owners ==> Joined(records, owners[id := index], Rehung(rep, rep[index], rep[owners[id]]), i, f)
    ensures id !in owners ==> Joined(records, owners[id := index], rep, i, f)
  {
  }

  /** The roots after record `index` meets the owner of identifier `id`. */
  ghost function Met(owners: map<Identifier, nat>, rep: seq<nat>, index: nat, id: Identifier): seq<nat>
    requires index < |rep| && (id in owners ==> owners[id] < |rep|)
  {
    if id in owners then Rehung(rep, rep[index], rep[owners[id]]) else rep
  }

  ghost predicate StillJoined(records: seq<Record>, owners: map<Identifier, nat>, rep: seq<nat>,
                              owners': map<Identifier, nat>, rep': seq<nat>)
    requires |rep| == |records| == |rep'| && OwnersCarry(records, owners) && OwnersCarry(records, owners')
  {
    forall i, f: Field | 0 <= i < |records| && Joined(records, owners, rep, i, f) :: Joined(records, owners', rep', i, f)
  }

  lemma MeetOwner(records: seq<Record>, owners: map<Identifier, nat>, rep: seq<nat>, index: nat, id: Identifier)
    requires Sound(records, rep) && OwnersCarry(records, owners)
    requires index < |records| && id in Identifiers(records[index])
    requires forall k :: 0 <= k < |rep| ==> rep[k] < |rep|
    ensures OwnersCarry(records, owners[id := index])
    ensures Sound(records, Met(owners, rep, index, id))
    ensures Joined(records, owners[id := index], Met(owners, rep, index, id), index, id.field)
    ensures StillJoined(records, owners, rep, owners[id := index], Met(owners, rep, index, id))
  {
    forall i, f: Field | 0 <= i < |records| && Joined(records, owners, rep, i, f)
      ensures Joined(records, owners[id := index], Met(owners, rep, index, id), i, f)
    {
      JoinedAfterHang(records, owners, rep, index, id, i, f);
    }
    if id in owners {
      assert IdentifierOf(records[index], id.field) == IdentifierOf(records[owners[id]], id.field);
      assert Shares(records[index], records[owners[id]]);
      SoundAfterHang(records, rep, index, owners[id]);
    }
  }

  /** The shared-identifier loop body: hang this record's root under the root
      of the identifier's previous owner, and become its owner. */
  method Join(records: seq<Record>, parents: array<nat>, owners: map<Identifier, nat>, index: nat, field: Field,
              ghost rep: seq<nat>, ghost dist: seq<nat>)
    returns (owners': map<Identifier, nat>, ghost rep': seq<nat>, ghost dist': seq<nat>)
    requires parents.Length == |records| && index < |records|
    requires Forest(parents[..], rep, dist) && Grounded(rep, dist)
    requires Sound(records, rep) && OwnersCarry(records, owners)
    modifies parents
    ensures Forest(parents[..], rep', dist') && Grounded(rep', dist')
    ensures Sound(records, rep') && OwnersCarry(records, owners')
    ensures Joined(records, owners', rep', index, field)
    ensures StillJoined(records, owners, rep, owners', rep')
  {
    owners', rep', dist' := owners, rep, dist;
    if ValueOf(records[index].turn, field) != "" {
      var id := IdentifierOf(records[index], field);
      MeetOwner(records, owners, rep, index, id);
      rep' := Met(owners, rep, index, id);
      if id in owners {
        dist' := Union(parents, index, owners[id], rep, dist);
      }
      owners' := owners[id := index];
    }
  }

  /** The groups a dictionary keyed by root holds. */
  ghost predicate Grouped(records: seq<Record>, rep: seq<nat>, upTo: nat, groups: map<nat, seq<Record>>)
    requires |rep| == |records| && upTo <= |records|
  {
    && (forall r <- groups.Keys :: exists i :: 0 <= i < upTo && rep[i] == r)
    && (forall i :: 0 <= i < upTo ==> rep[i] in groups)
    && (forall r <- groups.Keys, x :: x in groups[r] <==> exists i :: 0 <= i < upTo && rep[i] == r && records[i] == x)
  }

  /** A dictionary of groups holds every component once, and nothing else. */
  ghost predicate IsPartition<K(!new)>(s: set<Record>, groups: map<K, seq<Record>>) {
    && (forall r <- groups.Keys :: groups[r] != [] && Elems(groups[r]) in Components(s))
    && (forall c <- Components(s) :: exists r :: r in groups.Keys && Elems(groups[r]) == c)
    && forall r, t | r in groups.Keys && t in groups.Keys && r != t :: Elems(groups[r]) != Elems(groups[t])
  }

  /** Merges records into turns: the groups are exactly the connected
      components, each stored under one key. */
  method Merge(records: seq<Record>) returns (groups: map<nat, seq<Record>>)
    requires Distinct(records)
    ensures IsPartition(Elems(records), groups)
  {
    var parents := new nat[|records|](i => i);
    ghost var rep, dist := MergeAll(records, parents);
    groups := Gather(records, parents, rep, dist);
    GroupedIsPartition(records, rep, groups);
  }

  ghost predicate ExactRoots(records: seq<Record>, rep: seq<nat>) {
    && |rep| == |records|
    && forall i, j :: 0 <= i < |rep| && 0 <= j < |rep| ==>
         (rep[i] == rep[j] <==> Connected(Elems(records), records[i], records[j]))
  }

  /** Before any link every record is its own root. */
  lemma Alone(records: seq<Record>, parents: seq<nat>, dist: seq<nat>)
    requires |parents| == |records| == |dist|
    requires forall i :: 0 <= i < |records| ==> parents[i] == i && dist[i] == 0
    ensures Forest(parents, parents, dist) && Grounded(parents, dist) && Sound(records, parents)
  {
    forall i | 0 <= i < |records| ensures Connected(Elems(records), records[i], records[i]) {
      ConnectedStep(Elems(records), records[i], records[i]);
    }
  }

  method MergeAll(records: seq<Record>, parents: array<nat>) returns (ghost rep: seq<nat>, ghost dist: seq<nat>)
    requires Distinct(records)
    requires parents.Length == |records| && forall i :: 0 <= i < |records| ==> parents[i] == i
    modifies parents
    ensures Forest(parents[..], rep, dist) && ExactRoots(records, rep)
  {
    hide Forest, Grounded, Sound, ExactRoots, Connected, Shares;
    var owners: map<Identifier, nat> := map[];
    rep, dist := parents[..], seq(|records|, i => 0);
    Alone(records, rep, dist);
    for index := 0 to |records|
      invariant |rep| == |records|
      invariant Forest(parents[..], rep, dist) && Grounded(rep, dist)
      invariant Sound(records, rep) && OwnersCarry(records, owners)
      invariant AllJoined(records, owners, rep, index, InteractionId) && AllJoined(records, owners, rep, index, RunId)
    {
      owners, rep, dist := Join(records, parents, owners, index, InteractionId, rep, dist);
      owners, rep, dist := Join(records, parents, owners, index, RunId, rep, dist);
    }
    Exact(records, owners, rep);
  }

  /** `groups.setdefault(root(index), []).append(record)` for every record. */
  method Gather(records: seq<Record>, parents: array<nat>, ghost rep: seq<nat>, ghost dist: seq<nat>)
    returns (groups: map<nat, seq<Record>>)
    requires parents.Length == |records| && Forest(parents[..], rep, dist)
    modifies parents
    ensures Grouped(records, rep, |records|, groups)
  {
    groups := map[];
    for index := 0 to |records|
      invariant Forest(parents[..], rep, dist)
      invariant Grouped(records, rep, index, groups)
    {
      var root := Root(parents, index, rep, dist);
      GroupedStep(records, rep, index, groups);
      groups := groups[root := (if root in groups then groups[root] else []) + [records[index]]];
    }
  }

  lemma GroupedStep(records: seq<Record>, rep: seq<nat>, index: nat, groups: map<nat, seq<Record>>)
    requires |rep| == |records| && index < |records| && Grouped(records, rep, index, groups)
    ensures Grouped(records, rep, index + 1,
                    groups[rep[index] := (if rep[index] in groups then groups[rep[index]] else []) + [records[index]]])
  {
    var root := rep[index];
    var own := if root in groups then groups[root] else [];
    var groups' := groups[root := own + [records[index]]];
    forall r, x | r in groups'.Keys
      ensures x in groups'[r] <==> exists i :: 0 <= i < index + 1 && rep[i] == r && records[i] == x
    {
      if r == root && root !in groups {
        assert forall i :: 0 <= i < index ==> rep[i] != root;
      }
      if exists i :: 0 <= i < index + 1 && rep[i] == r && records[i] == x {
        var i :| 0 <= i < index + 1 && rep[i] == r && records[i] == x;
        assert x in groups'[r];
      }
      if x in groups'[r] {
        if r in groups && x in groups[r] {
          var i :| 0 <= i < index && rep[i] == r && records[i] == x;
        }
      }
    }
  }

  /** Once every identifier has been joined, same root is exactly connected. */
  lemma Exact(records: seq<Record>, owners: map<Identifier, nat>, rep: seq<nat>)
    requires Sound(records, rep) && OwnersCarry(records, owners) && Distinct(records)
    requires AllJoined(records, owners, rep, |records|, InteractionId) && AllJoined(records, owners, rep, |records|, RunId)
    ensures ExactRoots(records, rep)
  {
    var s := Elems(records);
    forall i, j | 0 <= i < |rep| && 0 <= j < |rep| && Connected(s, records[i], records[j])
      ensures rep[i] == rep[j]
    {
      var p :| Joins(s, p, records[i], records[j]);
      AlongPath(records, owners, rep, p, i, j);
    }
  }

  lemma {:induction false} AlongPath(records: seq<Record>, owners: map<Identifier, nat>, rep: seq<nat>, p: seq<Record>,
                                     i: nat, j: nat)
    requires |rep| == |records| && OwnersCarry(records, owners) && Distinct(records)
    requires AllJoined(records, owners, rep, |records|, InteractionId) && AllJoined(records, owners, rep, |records|, RunId)
    requires i < |rep| && j < |rep| && Joins(Elems(records), p, records[i], records[j])
    ensures rep[i] == rep[j]
    decreases |p|
  {
    if |p| == 1 {
      assert records[i] == records[j];
    } else {
      assert p[1] in Elems(records);
      var k :| 0 <= k < |records| && records[k] == p[1];
      assert Shares(p[0], p[1]);
      var f: Field :| ValueOf(p[0].turn, f) != "" && IdentifierOf(p[0], f) == IdentifierOf(p[1], f);
      assert Joined(records, owners, rep, i, f) && Joined(records, owners, rep, k, f);
      assert Joins(Elems(records), p[1..], records[k], records[j]);
      AlongPath(records, owners, rep, p[1..], k, j);
    }
  }

  lemma GroupedIsPartition(records: seq<Record>, rep: seq<nat>, groups: map<nat, seq<Record>>)
    requires ExactRoots(records, rep) && Grouped(records, rep, |records|, groups)
    ensures IsPartition(Elems(records), groups)
  {
    hide Connected, Component;
    var s := Elems(records);
    forall i | 0 <= i < |records| ensures Elems(groups[rep[i]]) == Component(s, records[i]) {
      GroupIsComponent(records, rep, groups, i);
    }
    forall r | r in groups.Keys ensures groups[r] != [] && Elems(groups[r]) in Components(s) {
      var i :| 0 <= i < |records| && rep[i] == r;
      assert records[i] in groups[r];
    }
    forall c | c in Components(s) ensures exists r :: r in groups.Keys && Elems(groups[r]) == c {
      var a :| a in s && c == Component(s, a);
      var i :| 0 <= i < |records| && records[i] == a;
      assert rep[i] in groups.Keys;
    }
    forall r, t | r in groups.Keys && t in groups.Keys && r != t ensures Elems(groups[r]) != Elems(groups[t]) {
      var i :| 0 <= i < |records| && rep[i] == r;
      var j :| 0 <= j < |records| && rep[j] == t;
      ComponentsEqual(s, records[i], records[j]);
    }
  }

  lemma GroupIsComponent(records: seq<Record>, rep: seq<nat>, groups: map<nat, seq<Record>>, i: nat)
    requires ExactRoots(records, rep) && Grouped(records, rep, |records|, groups) && i < |rep|
    ensures Elems(groups[rep[i]]) == Component(Elems(records), records[i])
  {
    var s := Elems(records);
    forall x ensures x in Elems(groups[rep[i]]) <==> x in Component(s, records[i]) {
      if x in groups[rep[i]] {
        var j :| 0 <= j < |records| && rep[j] == rep[i] && records[j] == x;
        assert Connected(s, records[i], records[j]);
      }
      if x in Component(s, records[i]) {
        var j :| 0 <= j < |records| && records[j] == x;
        assert rep[i] == rep[j];
      }
    }
  }
}
