/**
  Edge storage: a map from pairs of node IDs to edges, kept as objects named by
  the hash of both IDs joined with a dash, and looked up by two labels.
 */
module Graph {
  import opened Text
  import opened Kube
  import opened Peers

  datatype Props = Props(weight: int, attributes: map<Str, Str>)

  datatype MeshEdge = MeshEdge(source: Str, target: Str, props: Props)

  datatype EdgeObject = EdgeObject(sourceLabel: Str, targetLabel: Str, edge: MeshEdge)

  type EdgeObjects = map<Str, EdgeObject>

  type EdgeMap = map<(Str, Str), Props>

  /** Label values are cut at 63 characters. */
  function TruncateNodeID(id: Str): Str {
    if |id| <= 63 then id else id[..63]
  }

  function JoinIds(source: Str, target: Str): Str {
    source + [DASH] + target
  }

  function HashEdge(sha1: Hash, source: Str, target: Str): Str {
    sha1(JoinIds(source, target))
  }

  // ---------- When edge names are unambiguous ----------

  ghost predicate PairsUnambiguous(ids: set<Str>) {
    forall s, t, s', t' :: s in ids && t in ids && s' in ids && t' in ids && JoinIds(s, t) == JoinIds(s', t')
      ==> s == s' && t == t'
  }

  /** No ID begins with another and a dash in such a way that what follows, a dash
      and a third ID make a fourth. */
  ghost predicate NoOverlap(ids: set<Str>) {
    forall a, b, t :: a in ids && b in ids && t in ids && a + [DASH] <= b ==> JoinIds(b[|a| + 1..], t) !in ids
  }

  /** The simpler sufficient condition. */
  ghost predicate NoDashedPrefix(ids: set<Str>) {
    forall a, b :: a in ids && b in ids ==> !(a + [DASH] <= b)
  }

  lemma UnambiguousIff(ids: set<Str>)
    ensures PairsUnambiguous(ids) <==> NoOverlap(ids)
    ensures NoDashedPrefix(ids) ==> PairsUnambiguous(ids)
  {
    if PairsUnambiguous(ids) {
      forall a, b, t | a in ids && b in ids && t in ids && a + [DASH] <= b ensures JoinIds(b[|a| + 1..], t) !in ids {
        var u := JoinIds(b[|a| + 1..], t);
        assert b == a + [DASH] + b[|a| + 1..];
        assert JoinIds(a, u) == JoinIds(b, t);
        assert |a| != |b|;
      }
    }
    if NoOverlap(ids) {
      forall s, t, s', t' | s in ids && t in ids && s' in ids && t' in ids && JoinIds(s, t) == JoinIds(s', t')
        ensures s == s' && t == t'
      {
        if |s| <= |s'| {
          JoinedAlike(ids, s, t, s', t');
        } else {
          JoinedAlike(ids, s', t', s, t);
        }
      }
    }
    assert NoDashedPrefix(ids) ==> NoOverlap(ids);
  }

  lemma JoinedAlike(ids: set<Str>, s: Str, t: Str, s': Str, t': Str)
    requires NoOverlap(ids) && s in ids && t in ids && s' in ids && t' in ids
    requires JoinIds(s, t) == JoinIds(s', t') && |s| <= |s'|
    ensures s == s' && t == t'
  {
    var joined := JoinIds(s, t);
    assert joined[..|s|] == s && joined[|s| + 1..] == t && joined[|s|] == DASH;
    assert joined[..|s'|] == s' && joined[|s'| + 1..] == t';
    if |s| < |s'| {
      JoinedShorter(s, t, s', t');
    }
  }

  lemma JoinedShorter(s: Str, t: Str, s': Str, t': Str)
    requires JoinIds(s, t) == JoinIds(s', t') && |s| < |s'|
    ensures s + [DASH] <= s' && t == JoinIds(s'[|s| + 1..], t')
  {
    var joined := JoinIds(s, t);
    assert joined[..|s| + 1] == s + [DASH];
    assert joined[..|s'|] == s';
    assert t == joined[|s| + 1..] == JoinIds(s'[|s| + 1..], t');
  }

  // IDs that overlap: `1`, `1-2`, `3` and `2-3` as bytes.
  lemma OverlapExists()
    ensures !NoOverlap({[1], [1, DASH, 2], [3], [2, DASH, 3]})
  {
    var a: Str, b: Str, t: Str := [1], [1, DASH, 2], [3];
    assert a + [DASH] <= b;
    assert JoinIds(b[|a| + 1..], t) == [2, DASH, 3];
  }

  // ---------- The objects as a map from pairs ----------

  /** Every object sits under the name of its own edge and carries its labels. */
  ghost predicate WellNamed(sha1: Hash, objects: EdgeObjects) {
    forall n :: n in objects ==> IsObjectFor(sha1, n, objects[n])
  }

  predicate IsObjectFor(sha1: Hash, n: Str, o: EdgeObject) {
    && n == HashEdge(sha1, o.edge.source, o.edge.target)
    && o.sourceLabel == TruncateNodeID(o.edge.source) && o.targetLabel == TruncateNodeID(o.edge.target)
  }

  function PairOf(o: EdgeObject): (Str, Str) {
    (o.edge.source, o.edge.target)
  }

  function Pairs(objects: EdgeObjects): set<(Str, Str)> {
    set n | n in objects :: PairOf(objects[n])
  }

  function Edges(sha1: Hash, objects: EdgeObjects): EdgeMap {
    map p | p in Pairs(objects) && HashEdge(sha1, p.0, p.1) in objects :: objects[HashEdge(sha1, p.0, p.1)].edge.props
  }

  // A pair has an edge when the object under its name is that pair's.
  lemma PairIsObject(sha1: Hash, objects: EdgeObjects, p: (Str, Str))
    requires WellNamed(sha1, objects)
    ensures var n := HashEdge(sha1, p.0, p.1);
            && (p in Edges(sha1, objects) <==> n in objects && PairOf(objects[n]) == p)
            && (p in Edges(sha1, objects) ==> Edges(sha1, objects)[p] == objects[n].edge.props)
  {
    if p in Edges(sha1, objects) {
      var m :| m in objects && PairOf(objects[m]) == p;
      assert IsObjectFor(sha1, m, objects[m]);
    }
  }

  function ObjectFor(s: Str, t: Str, props: Props): EdgeObject {
    EdgeObject(TruncateNodeID(s), TruncateNodeID(t), MeshEdge(s, t, props))
  }

  datatype Change = Set(source: Str, target: Str, props: Props) | Remove(source: Str, target: Str)

  function ChangeObjects(sha1: Hash, c: Change, objects: EdgeObjects): EdgeObjects {
    var n := HashEdge(sha1, c.source, c.target);
    match c
    case Set(s, t, props) => objects[n := ObjectFor(s, t, props)]
    case Remove(_, _) => objects - {n}
  }

  function ChangeEdges(c: Change, edges: EdgeMap): EdgeMap {
    match c
    case Set(s, t, props) => edges[(s, t) := props]
    case Remove(s, t) => edges - {(s, t)}
  }

  /** No other pair's edge holds the name. */
  predicate NameFree(sha1: Hash, objects: EdgeObjects, source: Str, target: Str) {
    var n := HashEdge(sha1, source, target);
    n in objects ==> PairOf(objects[n]) == (source, target)
  }

  // Adding, updating or removing an edge changes that one pair exactly when no
  // other pair's edge holds its name.
  lemma ChangeRefinesIff(sha1: Hash, c: Change, objects: EdgeObjects)
    requires WellNamed(sha1, objects)
    ensures WellNamed(sha1, ChangeObjects(sha1, c, objects))
    ensures Edges(sha1, ChangeObjects(sha1, c, objects)) == ChangeEdges(c, Edges(sha1, objects))
            <==> NameFree(sha1, objects, c.source, c.target)
  {
    hide Edges, HashEdge, TruncateNodeID;
    var n, objects' := HashEdge(sha1, c.source, c.target), ChangeObjects(sha1, c, objects);
    forall m | m in objects' ensures IsObjectFor(sha1, m, objects'[m]) {
      assert m in objects ==> IsObjectFor(sha1, m, objects[m]);
    }
    var left, right := Edges(sha1, objects'), ChangeEdges(c, Edges(sha1, objects));
    if n in objects && PairOf(objects[n]) != (c.source, c.target) {
      var p := PairOf(objects[n]);
      assert IsObjectFor(sha1, n, objects[n]);
      PairIsObject(sha1, objects, p);
      PairIsObject(sha1, objects', p);
      assert p in right && p !in left;
    } else {
      forall p
        ensures p in left <==> p in right
        ensures p in left ==> left[p] == right[p]
      {
        ChangeAt(sha1, c, objects, p);
      }
      assert left == right;
    }
  }

  lemma ChangeAt(sha1: Hash, c: Change, objects: EdgeObjects, p: (Str, Str))
    requires WellNamed(sha1, objects) && NameFree(sha1, objects, c.source, c.target)
    requires WellNamed(sha1, ChangeObjects(sha1, c, objects))
    ensures var left, right := Edges(sha1, ChangeObjects(sha1, c, objects)), ChangeEdges(c, Edges(sha1, objects));
            (p in left <==> p in right) && (p in left ==> left[p] == right[p])
  {
    hide Edges, WellNamed, HashEdge, TruncateNodeID;
    PairIsObject(sha1, objects, p);
    PairIsObject(sha1, ChangeObjects(sha1, c, objects), p);
  }

  // ---------- Runs ----------

  function ObjectsAfter(sha1: Hash, changes: seq<Change>): EdgeObjects {
    if changes == [] then map[]
    else ChangeObjects(sha1, changes[|changes| - 1], ObjectsAfter(sha1, changes[..|changes| - 1]))
  }

  function EdgesAfter(changes: seq<Change>): EdgeMap {
    if changes == [] then map[]
    else ChangeEdges(changes[|changes| - 1], EdgesAfter(changes[..|changes| - 1]))
  }

  ghost predicate Within(changes: seq<Change>, ids: set<Str>) {
    forall i :: 0 <= i < |changes| ==> changes[i].source in ids && changes[i].target in ids
  }

  ghost predicate PairsWithin(objects: EdgeObjects, ids: set<Str>) {
    forall n :: n in objects ==> objects[n].edge.source in ids && objects[n].edge.target in ids
  }

  lemma NameIsFree(sha1: Hash, ids: set<Str>, objects: EdgeObjects, s: Str, t: Str)
    requires Injective(sha1) && NoOverlap(ids) && s in ids && t in ids
    requires WellNamed(sha1, objects) && PairsWithin(objects, ids)
    ensures NameFree(sha1, objects, s, t)
  {
    hide NoOverlap;
    UnambiguousIff(ids);
    var n := HashEdge(sha1, s, t);
    if n in objects {
      assert IsObjectFor(sha1, n, objects[n]);
    }
  }

  lemma {:induction false} RunRefines(sha1: Hash, ids: set<Str>, changes: seq<Change>)
    requires Injective(sha1) && NoOverlap(ids) && Within(changes, ids)
    ensures WellNamed(sha1, ObjectsAfter(sha1, changes)) && PairsWithin(ObjectsAfter(sha1, changes), ids)
    ensures Edges(sha1, ObjectsAfter(sha1, changes)) == EdgesAfter(changes)
  {
    hide NoOverlap, Injective, WellNamed, Edges, HashEdge;
    if changes == [] {
      NoObjects(sha1);
    } else {
      var init, c := changes[..|changes| - 1], changes[|changes| - 1];
      RunRefines(sha1, ids, init);
      NameIsFree(sha1, ids, ObjectsAfter(sha1, init), c.source, c.target);
      ChangeRefinesIff(sha1, c, ObjectsAfter(sha1, init));
    }
  }

  lemma NoObjects(sha1: Hash)
    ensures WellNamed(sha1, map[]) && Edges(sha1, map[]) == map[]
  {}

  // Every run over a set of IDs refines the map from pairs exactly when no IDs in
  // the set overlap; their lengths do not matter.
  lemma RunsRefineIff(sha1: Hash, ids: set<Str>)
    requires Injective(sha1)
    ensures (forall changes :: Within(changes, ids) ==> Edges(sha1, ObjectsAfter(sha1, changes)) == EdgesAfter(changes))
            <==> NoOverlap(ids)
  {
    if NoOverlap(ids) {
      forall changes | Within(changes, ids) ensures Edges(sha1, ObjectsAfter(sha1, changes)) == EdgesAfter(changes) {
        RunRefines(sha1, ids, changes);
      }
    } else {
      var s, t, s', t' := OverlapLosesEdge(sha1, ids, Props(0, map[]));
      var changes := [Set(s, t, Props(0, map[])), Set(s', t', Props(0, map[]))];
      assert Within(changes, ids);
      assert changes[..1] == [changes[0]];
      assert (s, t) in EdgesAfter(changes);
    }
  }

  // IDs that overlap make two edges one: there are distinct pairs of which
  // setting the second undoes setting the first.
  lemma OverlapLosesEdge(sha1: Hash, ids: set<Str>, props: Props) returns (s: Str, t: Str, s': Str, t': Str)
    requires !NoOverlap(ids)
    ensures s in ids && t in ids && s' in ids && t' in ids && (s, t) != (s', t')
    ensures (s, t) !in Edges(sha1, ObjectsAfter(sha1, [Set(s, t, props), Set(s', t', props)]))
  {
    UnambiguousIff(ids);
    s, t, s', t' :| s in ids && t in ids && s' in ids && t' in ids && JoinIds(s, t) == JoinIds(s', t')
      && !(s == s' && t == t');
    SameNameOverwrites(sha1, s, t, s', t', props);
  }

  lemma SameNameOverwrites(sha1: Hash, s: Str, t: Str, s': Str, t': Str, props: Props)
    requires JoinIds(s, t) == JoinIds(s', t') && (s, t) != (s', t')
    ensures (s, t) !in Edges(sha1, ObjectsAfter(sha1, [Set(s, t, props), Set(s', t', props)]))
  {
    hide Edges, TruncateNodeID;
    var one, two := [Set(s, t, props)], [Set(s, t, props), Set(s', t', props)];
    assert two[..1] == one && one[..0] == [];
    var n := HashEdge(sha1, s', t');
    assert ObjectsAfter(sha1, one) == map[n := ObjectFor(s, t, props)];
    assert ObjectsAfter(sha1, two) == map[n := ObjectFor(s', t', props)];
    OnlyObject(sha1, n, ObjectFor(s', t', props), s, t);
  }

  lemma OnlyObject(sha1: Hash, n: Str, o: EdgeObject, s: Str, t: Str)
    requires PairOf(o) != (s, t)
    ensures (s, t) !in Edges(sha1, map[n := o])
  {}

  // ---------- Looking an edge up by its labels ----------

  predicate HasLabels(o: EdgeObject, source: Str, target: Str) {
    o.sourceLabel == TruncateNodeID(source) && o.targetLabel == TruncateNodeID(target)
  }

  /** The edge of the first object, in the order listed, with a pair's labels. */
  function FirstLabelled(order: seq<Str>, objects: EdgeObjects, source: Str, target: Str): Option<MeshEdge>
    requires forall n :: n in order ==> n in objects
  {
    if order == [] then None
    else if HasLabels(objects[order[0]], source, target) then Some(objects[order[0]].edge)
    else FirstLabelled(order[1..], objects, source, target)
  }

  /** The pair's own edge. */
  function EdgeOfPair(sha1: Hash, objects: EdgeObjects, source: Str, target: Str): Option<MeshEdge> {
    var edges := Edges(sha1, objects);
    if (source, target) in edges then Some(MeshEdge(source, target, edges[(source, target)])) else None
  }

  /** No other pair with an edge has the same labels. */
  ghost predicate LabelsFree(objects: EdgeObjects, source: Str, target: Str) {
    forall n :: n in objects && HasLabels(objects[n], source, target) ==> PairOf(objects[n]) == (source, target)
  }

  lemma {:induction false} FirstLabelledIs(order: seq<Str>, objects: EdgeObjects, source: Str, target: Str)
    requires forall n :: n in order ==> n in objects
    ensures var found := FirstLabelled(order, objects, source, target);
            && (found.None? <==> forall n :: n in order ==> !HasLabels(objects[n], source, target))
            && forall i :: 0 <= i < |order| && HasLabels(objects[order[i]], source, target)
                           && (forall j :: 0 <= j < i ==> !HasLabels(objects[order[j]], source, target)) ==>
                 found == Some(objects[order[i]].edge)
  {
    if order != [] {
      FirstLabelledIs(order[1..], objects, source, target);
      assert forall n :: n in order <==> n == order[0] || n in order[1..];
    }
  }

  // Edge finds the pair's edge, or that there is none, for every order of listing
  // exactly when no other pair with an edge has the same labels.
  lemma LookupFindsPairIff(sha1: Hash, objects: EdgeObjects, source: Str, target: Str)
    requires WellNamed(sha1, objects)
    ensures (forall order :: IsOrder(order, objects.Keys) ==>
               FirstLabelled(order, objects, source, target) == EdgeOfPair(sha1, objects, source, target))
            <==> LabelsFree(objects, source, target)
  {
    hide Edges, HashEdge, TruncateNodeID, FirstLabelled;
    PairIsObject(sha1, objects, (source, target));
    var own := HashEdge(sha1, source, target);
    if LabelsFree(objects, source, target) {
      forall order | IsOrder(order, objects.Keys)
        ensures FirstLabelled(order, objects, source, target) == EdgeOfPair(sha1, objects, source, target)
      {
        FreeLookup(sha1, objects, order, source, target);
      }
    } else {
      var n :| n in objects && HasLabels(objects[n], source, target) && PairOf(objects[n]) != (source, target);
      var order := OrderFrom(objects.Keys, n);
      FirstIs(order, objects, source, target);
    }
  }

  lemma FirstIs(order: seq<Str>, objects: EdgeObjects, source: Str, target: Str)
    requires order != [] && (forall n :: n in order ==> n in objects) && HasLabels(objects[order[0]], source, target)
    ensures FirstLabelled(order, objects, source, target) == Some(objects[order[0]].edge)
  {}

  lemma FreeLookup(sha1: Hash, objects: EdgeObjects, order: seq<Str>, source: Str, target: Str)
    requires WellNamed(sha1, objects) && LabelsFree(objects, source, target) && IsOrder(order, objects.Keys)
    ensures FirstLabelled(order, objects, source, target) == EdgeOfPair(sha1, objects, source, target)
  {
    hide Edges, HashEdge, TruncateNodeID, FirstLabelled;
    PairIsObject(sha1, objects, (source, target));
    FirstLabelledIs(order, objects, source, target);
    var found, own := FirstLabelled(order, objects, source, target), HashEdge(sha1, source, target);
    if (source, target) in Edges(sha1, objects) {
      assert IsObjectFor(sha1, own, objects[own]);
      assert own in order && HasLabels(objects[own], source, target);
    }
    if found.Some? {
      var n :| n in order && HasLabels(objects[n], source, target) && objects[n].edge == found.value;
      assert IsObjectFor(sha1, n, objects[n]);
    }
  }

  // A set can be listed with any of its elements first.
  lemma OrderFrom(keys: set<Str>, first: Str) returns (order: seq<Str>)
    requires first in keys
    ensures IsOrder(order, keys) && order[0] == first
  {
    var rest := SomeOrder(keys - {first});
    order := [first] + rest;
  }

  lemma {:induction false} SomeOrder(keys: set<Str>) returns (order: seq<Str>)
    ensures IsOrder(order, keys)
    decreases keys
  {
    if keys == {} {
      order := [];
    } else {
      var k :| k in keys;
      var rest := SomeOrder(keys - {k});
      order := [k] + rest;
    }
  }

  // IDs of at most 63 characters are their own labels.
  lemma ShortIdsAreFree(sha1: Hash, ids: set<Str>, objects: EdgeObjects, source: Str, target: Str)
    requires WellNamed(sha1, objects) && PairsWithin(objects, ids) && source in ids && target in ids
    requires forall id :: id in ids ==> |id| <= 63
    ensures LabelsFree(objects, source, target)
  {
    forall n | n in objects && HasLabels(objects[n], source, target) ensures PairOf(objects[n]) == (source, target) {
      assert IsObjectFor(sha1, n, objects[n]);
    }
  }

  // Longer IDs that agree in their first 63 characters share labels: the edge from
  // one is found when the edge from the other is looked up.
  lemma LongIdsClash(sha1: Hash, a: Str, b: Str, target: Str, props: Props)
    requires a != b && TruncateNodeID(a) == TruncateNodeID(b)
    ensures var objects := ObjectsAfter(sha1, [Set(a, target, props)]);
            WellNamed(sha1, objects) && !LabelsFree(objects, b, target)
  {
    hide TruncateNodeID, HashEdge;
    var changes := [Set(a, target, props)];
    assert changes[..0] == [];
    var n, o := HashEdge(sha1, a, target), ObjectFor(a, target, props);
    var none := ObjectsAfter(sha1, changes[..0]);
    assert none == map[];
    var objects := ObjectsAfter(sha1, changes);
    assert objects == ChangeObjects(sha1, changes[0], none) == none[n := o];
    assert n in objects && HasLabels(objects[n], b, target) && PairOf(objects[n]) != (b, target);
  }

  // Two IDs of 64 bytes that differ in the last are such.
  lemma LongIdsExist()
    ensures var stem := seq(63, i => 1 as byte);
            stem + [1] != stem + [2] && TruncateNodeID(stem + [1]) == TruncateNodeID(stem + [2])
  {
    var stem: Str := seq(63, i => 1 as byte);
    assert (stem + [1])[63] != (stem + [2])[63];
    assert (stem + [1])[..63] == stem == (stem + [2])[..63];
  }

  // ---------- The store ----------

  class GraphStore {
    const sha1: Hash
    var objects: EdgeObjects

    constructor (sha1: Hash)
      ensures Valid() && this.sha1 == sha1 && Edges(sha1, objects) == map[]
    {
      this.sha1, objects := sha1, map[];
    }

    ghost predicate Valid()
      reads this
    {
      WellNamed(sha1, objects)
    }

    // An edge that exists already is replaced, and the vertices are not looked up.
    method AddEdge(source: Str, target: Str, props: Props)
      requires Valid()
      modifies this
      ensures Valid() && objects == ChangeObjects(sha1, Set(source, target, props), old(objects))
      ensures objects == old(objects)[sha1(source + [DASH] + target) :=
                EdgeObject(TruncateNodeID(source), TruncateNodeID(target), MeshEdge(source, target, props))]
      ensures Edges(sha1, objects) == old(Edges(sha1, objects))[(source, target) := props]
              <==> NameFree(sha1, old(objects), source, target)
    {
      ChangeRefinesIff(sha1, Set(source, target, props), objects);
      var edge := EdgeObject(TruncateNodeID(source), TruncateNodeID(target), MeshEdge(source, target, props));
      objects := objects[HashEdge(sha1, source, target) := edge];
    }

    // An edge that does not exist yet is created.
    method UpdateEdge(source: Str, target: Str, props: Props)
      requires Valid()
      modifies this
      ensures Valid() && objects == ChangeObjects(sha1, Set(source, target, props), old(objects))
      ensures objects == old(objects)[sha1(source + [DASH] + target) :=
                EdgeObject(TruncateNodeID(source), TruncateNodeID(target), MeshEdge(source, target, props))]
      ensures Edges(sha1, objects) == old(Edges(sha1, objects))[(source, target) := props]
              <==> NameFree(sha1, old(objects), source, target)
    {
      ChangeRefinesIff(sha1, Set(source, target, props), objects);
      var edge := EdgeObject(TruncateNodeID(source), TruncateNodeID(target), MeshEdge(source, target, props));
      objects := objects[HashEdge(sha1, source, target) := edge];
    }

    method RemoveEdge(source: Str, target: Str)
      requires Valid()
      modifies this
      ensures Valid() && objects == ChangeObjects(sha1, Remove(source, target), old(objects))
      ensures objects == old(objects) - {sha1(source + [DASH] + target)}
      ensures Edges(sha1, objects) == old(Edges(sha1, objects)) - {(source, target)}
              <==> NameFree(sha1, old(objects), source, target)
    {
      ChangeRefinesIff(sha1, Remove(source, target), objects);
      objects := objects - {HashEdge(sha1, source, target)};
    }

    /** The list call with both labels; `order` is the order of listing. */
    method ListByLabels(source: Str, target: Str) returns (items: seq<EdgeObject>, ghost order: seq<Str>)
      ensures IsOrder(order, objects.Keys)
      ensures FirstLabelled(order, objects, source, target) == if items == [] then None else Some(items[0].edge)
    {
      items, order := [], [];
      var todo := objects.Keys;
      while todo != {}
        invariant todo <= objects.Keys
        invariant IsOrder(order, objects.Keys - todo)
        invariant FirstLabelled(order, objects, source, target) == if items == [] then None else Some(items[0].edge)
      {
        var n :| n in todo;
        todo := todo - {n};
        FirstLabelledAppend(order, n, objects, source, target);
        order := order + [n];
        if objects[n].sourceLabel == TruncateNodeID(source) && objects[n].targetLabel == TruncateNodeID(target) {
          items := items + [objects[n]];
        }
      }
      assert objects.Keys - todo == objects.Keys;
    }

    // The edge found, in the order listed; LookupFindsPairIff says when it is the
    // pair's whatever the order.
    method Edge(source: Str, target: Str) returns (found: Option<MeshEdge>, ghost order: seq<Str>)
      requires Valid()
      ensures IsOrder(order, objects.Keys) && found == FirstLabelled(order, objects, source, target)
      ensures LabelsFree(objects, source, target) ==> found == EdgeOfPair(sha1, objects, source, target)
    {
      var items;
      items, order := ListByLabels(source, target);
      LookupFindsPairIff(sha1, objects, source, target);
      if |items| == 0 {
        return None, order;
      }
      return Some(items[0].edge), order;
    }

    // Every edge once, in some order.
    method ListEdges() returns (list: seq<MeshEdge>)
      requires Valid()
      ensures var edges := Edges(sha1, objects);
              && (forall i, j :: 0 <= i < j < |list| ==>
                                 (list[i].source, list[i].target) != (list[j].source, list[j].target))
              && forall e :: e in list <==> (e.source, e.target) in edges && edges[(e.source, e.target)] == e.props
    {
      hide Edges, HashEdge;
      list := [];
      ghost var names: seq<Str> := [];
      var todo := objects.Keys;
      while todo != {}
        invariant todo <= objects.Keys && |names| == |list|
        invariant IsOrder(names, objects.Keys - todo)
        invariant forall i :: 0 <= i < |list| ==> names[i] in objects && list[i] == objects[names[i]].edge
      {
        var n :| n in todo;
        todo := todo - {n};
        list, names := list + [objects[n].edge], names + [n];
      }
      assert objects.Keys - todo == objects.Keys;
      ListedOnce(sha1, objects, list, names);
    }
  }

  lemma {:induction false} FirstLabelledAppend(order: seq<Str>, n: Str, objects: EdgeObjects, source: Str, target: Str)
    requires n in objects && forall m :: m in order ==> m in objects
    ensures FirstLabelled(order + [n], objects, source, target)
            == (match FirstLabelled(order, objects, source, target)
                case Some(e) => Some(e)
                case None => if HasLabels(objects[n], source, target) then Some(objects[n].edge) else None)
  {
    if order == [] {
      assert order + [n] == [n] && [n][1..] == [];
    } else {
      FirstLabelledAppend(order[1..], n, objects, source, target);
      assert (order + [n])[1..] == order[1..] + [n];
    }
  }

  lemma ListedOnce(sha1: Hash, objects: EdgeObjects, list: seq<MeshEdge>, names: seq<Str>)
    requires WellNamed(sha1, objects) && |names| == |list| && IsOrder(names, objects.Keys)
    requires forall i :: 0 <= i < |list| ==> names[i] in objects && list[i] == objects[names[i]].edge
    ensures var edges := Edges(sha1, objects);
            && (forall i, j :: 0 <= i < j < |list| ==>
                               (list[i].source, list[i].target) != (list[j].source, list[j].target))
            && forall e :: e in list <==> (e.source, e.target) in edges && edges[(e.source, e.target)] == e.props
  {
    hide Edges, HashEdge, TruncateNodeID;
    var edges := Edges(sha1, objects);
    forall i | 0 <= i < |list| ensures IsObjectFor(sha1, names[i], objects[names[i]]) {}
    forall e ensures e in list <==> (e.source, e.target) in edges && edges[(e.source, e.target)] == e.props {
      PairIsObject(sha1, objects, (e.source, e.target));
      if e in list {
        var i :| 0 <= i < |list| && list[i] == e;
      }
      if (e.source, e.target) in edges && edges[(e.source, e.target)] == e.props {
        var n := HashEdge(sha1, e.source, e.target);
        var i :| 0 <= i < |names| && names[i] == n;
        assert list[i] == e;
      }
    }
  }
}
