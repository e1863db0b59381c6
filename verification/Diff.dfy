/**
  Notifications as differences of maps: what a subscriber that applies each
  notification to its own copy ends up with.
 */
module Diff {
  import opened Text
  import opened Kube
  import opened Store
  import Base64

  /** A call of a subscriber's function: a new value, or None for a deletion. */
  datatype Note = Note(key: Str, value: Option<Str>)

  type Mirror = map<Str, Str>

  function Apply(m: Mirror, note: Note): Mirror {
    match note.value
    case Some(v) => m[note.key := v]
    case None => m - {note.key}
  }

  function Fold(m: Mirror, notes: seq<Note>): Mirror {
    if notes == [] then m
    else Apply(Fold(m, notes[..|notes| - 1]), notes[|notes| - 1])
  }

  lemma FoldAppend(m: Mirror, notes: seq<Note>, note: Note)
    ensures Fold(m, notes + [note]) == Apply(Fold(m, notes), note)
  {
    assert (notes + [note])[..|notes|] == notes;
  }

  lemma {:induction false} FoldConcat(m: Mirror, notes: seq<Note>, notes': seq<Note>)
    ensures Fold(m, notes + notes') == Fold(Fold(m, notes), notes')
  {
    if notes' == [] {
      assert notes + notes' == notes;
    } else {
      var init := notes'[..|notes'| - 1];
      FoldConcat(m, notes, init);
      assert notes + notes' == (notes + init) + [notes'[|notes'| - 1]];
      FoldAppend(m, notes + init, notes'[|notes'| - 1]);
    }
  }

  /** A note tells of a key on which the maps differ, and tells the new side. */
  predicate Tells(before: Mirror, note: Note, after: Mirror) {
    match note.value
    case Some(v) => note.key in after && after[note.key] == v && !(note.key in before && before[note.key] == v)
    case None => note.key in before && note.key !in after
  }

  /** The notes turn one map into the other, tell only differences, and no key twice. */
  ghost predicate IsDiff(before: Mirror, notes: seq<Note>, after: Mirror) {
    && Fold(before, notes) == after
    && (forall i :: 0 <= i < |notes| ==> Tells(before, notes[i], after))
    && forall i, j :: 0 <= i < j < |notes| ==> notes[i].key != notes[j].key
  }

  // Nothing to tell, nothing told.
  lemma NoChangeNoNotes(m: Mirror, notes: seq<Note>)
    requires IsDiff(m, notes, m)
    ensures notes == []
  {
    assert forall note :: !Tells(m, note, m);
  }

  // Every difference is told, and by the note that says so.
  lemma {:induction false} DifferencesAreTold(before: Mirror, notes: seq<Note>, k: Str)
    ensures var after := Fold(before, notes);
            || ((k in before <==> k in after) && (k in before ==> before[k] == after[k]))
            || exists i :: 0 <= i < |notes| && notes[i] == Note(k, if k in after then Some(after[k]) else None)
  {
    if notes != [] {
      var init := notes[..|notes| - 1];
      DifferencesAreTold(before, init, k);
      assert notes[|notes| - 1].key == k ==>
          notes[|notes| - 1] == Note(k, if k in Fold(before, notes) then Some(Fold(before, notes)[k]) else None);
      assert forall i :: 0 <= i < |init| ==> init[i] == notes[i];
    }
  }

  lemma DiffAppend(before: Mirror, notes: seq<Note>, after: Mirror, note: Note)
    requires IsDiff(before, notes, after)
    requires (note.key in before <==> note.key in after) && (note.key in before ==> before[note.key] == after[note.key])
    requires Tells(before, note, Apply(after, note))
    ensures IsDiff(before, notes + [note], Apply(after, note))
  {
    FoldAppend(before, notes, note);
    forall i | 0 <= i < |notes| ensures notes[i].key != note.key && Tells(before, notes[i], Apply(after, note)) {
      assert Tells(before, notes[i], after);
    }
  }

  // Some notes tell any difference.
  lemma DiffExists(before: Mirror, after: Mirror) returns (notes: seq<Note>)
    ensures IsDiff(before, notes, after)
  {
    notes := DiffOver(before, after, before.Keys + after.Keys);
  }

  lemma {:induction false} DiffOver(before: Mirror, after: Mirror, keys: set<Str>) returns (notes: seq<Note>)
    requires forall k :: k !in keys ==> (k in before <==> k in after) && (k in before ==> before[k] == after[k])
    ensures IsDiff(before, notes, after)
    decreases keys
  {
    if keys == {} {
      assert before == after;
      notes := [];
    } else {
      var k :| k in keys;
      var mid := if k in before then after[k := before[k]] else after - {k};
      notes := DiffOver(before, mid, keys - {k});
      if (k in before <==> k in after) && (k in before ==> before[k] == after[k]) {
        assert mid == after;
      } else {
        var note := Note(k, if k in after then Some(after[k]) else None);
        assert Apply(mid, note) == after;
        DiffAppend(before, notes, mid, note);
        notes := notes + [note];
      }
    }
  }

  // A subscriber that cannot tell an empty value from a deletion, as both reach
  // it without bytes, holds exactly the non-empty entries.
  function ApplyBytes(m: Mirror, note: Note): Mirror {
    if note.value.Some? && note.value.value != [] then m[note.key := note.value.value] else m - {note.key}
  }

  function FoldBytes(notes: seq<Note>): Mirror {
    if notes == [] then map[]
    else ApplyBytes(FoldBytes(notes[..|notes| - 1]), notes[|notes| - 1])
  }

  function NonEmpty(m: Mirror): Mirror {
    map k | k in m && m[k] != [] :: m[k]
  }

  lemma {:induction false} BytesMirrorIsNonEmpty(notes: seq<Note>)
    ensures FoldBytes(notes) == NonEmpty(Fold(map[], notes))
  {
    if notes != [] {
      BytesMirrorIsNonEmpty(notes[..|notes| - 1]);
    }
  }

  // ---------- A bucket against a subscription ----------

  /** Every entry sits under the name of its item's key. */
  ghost predicate Named(data: map<Str, DataItem>) {
    forall n :: n in data ==> n == HashKey(data[n].key)
  }

  function ItemKeys(data: map<Str, DataItem>): set<Str> {
    set n | n in data :: data[n].key
  }

  /** The bucket's items with the prefix; expired ones count. */
  function Matching(data: map<Str, DataItem>, prefix: Str): Mirror {
    map k | k in ItemKeys(data) && prefix <= k && HashKey(k) in data :: data[HashKey(k)].value
  }

  /** The matching items among some entries. */
  function Among(data: map<Str, DataItem>, prefix: Str, entries: set<Str>): Mirror {
    map k | k in Matching(data, prefix) && HashKey(k) in entries :: Matching(data, prefix)[k]
  }

  lemma MatchingItem(data: map<Str, DataItem>, prefix: Str, n: Str)
    requires Named(data) && n in data
    ensures data[n].key in Matching(data, prefix) <==> prefix <= data[n].key
    ensures prefix <= data[n].key ==> Matching(data, prefix)[data[n].key] == data[n].value
    ensures forall k :: HashKey(k) == n ==> k == data[n].key
  {
    assert data[n].key in ItemKeys(data);
    forall k | HashKey(k) == n ensures k == data[n].key {
      Base64.Injective(k, data[n].key);
    }
  }

  /** Progress of the first loop: the entries passed have been merged into seen. */
  ghost predicate Scanned(before: Mirror, data: map<Str, DataItem>, prefix: Str, passed: set<Str>, seen: Mirror,
      notes: seq<Note>) {
    seen == before + Among(data, prefix, passed) && IsDiff(before, notes, seen)
  }

  lemma ScanStart(before: Mirror, data: map<Str, DataItem>, prefix: Str)
    ensures Scanned(before, data, prefix, {}, before, [])
  {
    assert Among(data, prefix, {}) == map[];
  }

  lemma AmongStep(data: map<Str, DataItem>, prefix: Str, passed: set<Str>, n: Str)
    requires Named(data) && n in data && n !in passed
    ensures var k := data[n].key;
            && Among(data, prefix, passed + {n}) == (if prefix <= k then Among(data, prefix, passed)[k := data[n].value]
                                                     else Among(data, prefix, passed))
            && k !in Among(data, prefix, passed)
  {
    MatchingItem(data, prefix, n);
  }

  lemma ScanStep(before: Mirror, data: map<Str, DataItem>, prefix: Str, passed: set<Str>, seen: Mirror,
      notes: seq<Note>, n: Str)
    requires Scanned(before, data, prefix, passed, seen, notes)
    requires Named(data) && n in data && n !in passed
    ensures var k, v := data[n].key, data[n].value;
            if !(prefix <= k) || (k in seen && seen[k] == v)
            then Scanned(before, data, prefix, passed + {n}, seen, notes)
            else Scanned(before, data, prefix, passed + {n}, seen[k := v], notes + [Note(k, Some(v))])
  {
    hide Among, HashKey;
    AmongStep(data, prefix, passed, n);
    var k, v := data[n].key, data[n].value;
    if prefix <= k {
      if k in seen && seen[k] == v {
        assert before + Among(data, prefix, passed + {n}) == seen;
      } else {
        assert before + Among(data, prefix, passed + {n}) == seen[k := v];
        DiffAppend(before, notes, seen, Note(k, Some(v)));
      }
    }
  }

  /** Progress of the second loop: the keys visited that lack an entry are gone. */
  ghost predicate Swept(before: Mirror, data: map<Str, DataItem>, prefix: Str, visited: set<Str>, seen: Mirror,
      notes: seq<Note>) {
    && IsDiff(before, notes, seen)
    && seen == (before + Matching(data, prefix)) - Gone(visited, data, prefix)
  }

  function Gone(visited: set<Str>, data: map<Str, DataItem>, prefix: Str): set<Str> {
    set k | k in visited && prefix <= k && HashKey(k) !in data
  }

  lemma SweepStart(before: Mirror, data: map<Str, DataItem>, prefix: Str, seen: Mirror, notes: seq<Note>)
    requires Scanned(before, data, prefix, data.Keys, seen, notes)
    ensures Swept(before, data, prefix, {}, seen, notes)
    ensures seen == before + Matching(data, prefix)
  {
    assert Among(data, prefix, data.Keys) == Matching(data, prefix);
    assert Gone({}, data, prefix) == {};
  }

  lemma SweepStep(before: Mirror, data: map<Str, DataItem>, prefix: Str, visited: set<Str>, seen: Mirror,
      notes: seq<Note>, k: Str)
    requires Swept(before, data, prefix, visited, seen, notes)
    requires k in before + Matching(data, prefix) && k !in visited
    ensures if prefix <= k && HashKey(k) !in data
            then Swept(before, data, prefix, visited + {k}, seen - {k}, notes + [Note(k, None)])
            else Swept(before, data, prefix, visited + {k}, seen, notes)
  {
    hide HashKey, Matching, Gone, Fold;
    var merged := before + Matching(data, prefix);
    GoneStep(data, prefix, visited, k);
    if prefix <= k && HashKey(k) !in data {
      assert merged - (Gone(visited, data, prefix) + {k}) == seen - {k};
      DiffAppend(before, notes, seen, Note(k, None));
    }
  }

  lemma GoneStep(data: map<Str, DataItem>, prefix: Str, visited: set<Str>, k: Str)
    ensures Gone(visited + {k}, data, prefix)
            == (if prefix <= k && HashKey(k) !in data then Gone(visited, data, prefix) + {k}
              else Gone(visited, data, prefix))
    ensures Gone(visited, data, prefix) <= visited
    ensures HashKey(k) !in data ==> k !in Matching(data, prefix)
  {}

  lemma SweepEnd(before: Mirror, data: map<Str, DataItem>, prefix: Str, seen: Mirror, notes: seq<Note>)
    requires Named(data) && forall k :: k in before ==> prefix <= k
    requires Swept(before, data, prefix, (before + Matching(data, prefix)).Keys, seen, notes)
    ensures seen == Matching(data, prefix) && IsDiff(before, notes, seen)
  {
    var all := before + Matching(data, prefix);
    forall k | k in all && HashKey(k) in data ensures k in Matching(data, prefix) {
      MatchingItem(data, prefix, HashKey(k));
    }
    assert forall k :: k in all ==> (k in seen <==> k in Matching(data, prefix));
  }
}
