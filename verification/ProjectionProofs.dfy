/** What a projection keeps and what it forgets. */
module ProjectionProofs {
  import opened Prelude
  import opened StableSort
  import opened CanonicalJson
  import opened CanonicalJsonProofs
  import opened Projection
  import Text

  /** In every declared array, at every depth, no two elements carry the same key. */
  predicate DistinctKeys(v: Value, keyed: Keyed, path: string)
    decreases v
  {
    match v
    case List(items) =>
      && (forall x | x in items :: DistinctKeys(x, keyed, path))
      && (FieldFor(keyed, path).Some? ==> DistinctFields(items, FieldFor(keyed, path).value))
    case Dict(es) => forall e | e in es :: DistinctKeys(e.value, keyed, ChildPath(path, e.key))
    case _ => true
  }

  predicate DistinctFields(xs: seq<Value>, f: string)
  {
    forall i, j | 0 <= i < j < |xs| :: FieldText(xs[i], f) != FieldText(xs[j], f)
  }

  /** Equality up to the order of dict entries and of declared arrays, at every depth, and nothing else. */
  predicate Alike(a: Value, b: Value, keyed: Keyed, path: string)
    decreases a, 0
  {
    match a
    case List(xs) =>
      && b.List? && |xs| == |b.items|
      && if FieldFor(keyed, path).Some?
         then forall i | 0 <= i < |xs| :: ItemIn(xs[i], b.items, keyed, path)
         else forall i | 0 <= i < |xs| :: Alike(xs[i], b.items[i], keyed, path)
    case Dict(es) =>
      && b.Dict? && |es| == |b.entries|
      && forall i | 0 <= i < |es| :: EntryIn(es[i], b.entries, keyed, path)
    case _ => a == b
  }

  predicate ItemIn(x: Value, ys: seq<Value>, keyed: Keyed, path: string)
    decreases x, 1
  {
    exists j | 0 <= j < |ys| :: Alike(x, ys[j], keyed, path)
  }

  predicate EntryIn(d: Entry, es: seq<Entry>, keyed: Keyed, path: string)
    decreases d, 1
  {
    exists j | 0 <= j < |es| :: d.key == es[j].key && Alike(d.value, es[j].value, keyed, ChildPath(path, d.key))
  }

  lemma FieldOrder(field: string)
    ensures WeakOrder(ByField(field))
  {
    var less := ByField(field);
    forall a, b ensures less(a, b) ==> !less(b, a) {
      if less(a, b) && less(b, a) {
        Text.LessTransitive(FieldText(a, field), FieldText(b, field), FieldText(a, field));
        Text.LessIrreflexive(FieldText(a, field));
        assert false;
      }
    }
    forall a, b, c ensures less(a, c) ==> less(a, b) || less(b, c) {
      Text.LessTotal(FieldText(a, field), FieldText(b, field));
      if less(b, a) && less(a, c) {
        Text.LessTransitive(FieldText(b, field), FieldText(a, field), FieldText(c, field));
      }
    }
  }

  // ---- a dict's string field survives projection ----

  lemma {:induction false} FieldOfMember(es: seq<Entry>, field: string, i: nat)
    requires i < |es| && es[i].key == field && es[i].value.Str?
    requires forall j, k | 0 <= j < k < |es| :: es[j].key != es[k].key
    ensures FieldOf(es, field) == es[i].value.s
  {
    if i > 0 { FieldOfMember(es[1..], field, i - 1); }
  }

  lemma {:induction false} FieldOfAbsent(es: seq<Entry>, field: string)
    requires forall e | e in es :: e.key == field ==> !e.value.Str?
    ensures FieldOf(es, field) == ""
  {
    if es != [] { FieldOfAbsent(es[1..], field); }
  }

  predicate UniqueKeys(es: seq<Entry>)
  {
    forall i, j | 0 <= i < j < |es| :: es[i].key != es[j].key
  }

  /** What the sorted, projected entries of a dict are. */
  lemma ProjectedEntries(es: seq<Entry>, gs: seq<Entry>, keyed: Keyed, path: string)
    requires UniqueKeys(es) && gs == Sort(EntryLess, ProjectEntries(es, keyed, path))
    ensures UniqueKeys(gs)
    ensures forall g :: g in gs <==> g in ProjectEntries(es, keyed, path)
  {
    var fs := ProjectEntries(es, keyed, path);
    SortKeepsElements(EntryLess, fs);
    SortKeepsMembers(EntryLess, fs);
    DistinctKeysSurvive(fs, gs);
  }

  lemma ProjectedField(v: Value, keyed: Keyed, path: string, field: string)
    requires WellFormed(v)
    ensures FieldText(Project(v, keyed, path), field) == FieldText(v, field)
    ensures HasField(v, field) ==> HasField(Project(v, keyed, path), field)
  {
    if HasField(v, field) {
      var i :| 0 <= i < |v.entries| && v.entries[i].key == field && v.entries[i].value.Str?;
      ProjectedFieldPresent(v.entries, keyed, path, field, i);
    } else if v.Dict? {
      ProjectedFieldAbsent(v.entries, keyed, path, field);
    }
  }

  lemma ProjectedFieldPresent(es: seq<Entry>, keyed: Keyed, path: string, field: string, i: nat)
    requires WellFormed(Dict(es)) && i < |es| && es[i].key == field && es[i].value.Str?
    ensures HasField(Project(Dict(es), keyed, path), field)
    ensures FieldText(Project(Dict(es), keyed, path), field) == es[i].value.s == FieldText(Dict(es), field)
  {
    var fs := ProjectEntries(es, keyed, path);
    var gs := Sort(EntryLess, fs);
    ProjectedEntries(es, gs, keyed, path);
    assert fs[i] == es[i] && fs[i] in fs;
    var j :| 0 <= j < |gs| && gs[j] == es[i];
    FieldOfMember(es, field, i);
    FieldOfMember(gs, field, j);
  }

  lemma ProjectedFieldAbsent(es: seq<Entry>, keyed: Keyed, path: string, field: string)
    requires UniqueKeys(es) && !HasField(Dict(es), field)
    ensures FieldText(Project(Dict(es), keyed, path), field) == "" == FieldText(Dict(es), field)
  {
    var gs := Sort(EntryLess, ProjectEntries(es, keyed, path));
    ProjectedEntries(es, gs, keyed, path);
    forall g | g in gs ensures g.key == field ==> !g.value.Str? { NoFieldProjected(es, keyed, path, field, g); }
    FieldOfAbsent(es, field);
    FieldOfAbsent(gs, field);
  }

  lemma NoFieldProjected(es: seq<Entry>, keyed: Keyed, path: string, field: string, g: Entry)
    requires !HasField(Dict(es), field) && g in ProjectEntries(es, keyed, path)
    ensures g.key == field ==> !g.value.Str?
  {
    var j :| 0 <= j < |es| && ProjectEntries(es, keyed, path)[j] == g;
    assert es[j] in es;
  }

  lemma ProjectionKind(v: Value, keyed: Keyed, path: string)
    ensures Project(v, keyed, path).List? == v.List? && Project(v, keyed, path).Dict? == v.Dict?
  {}

  /** A projection is well formed and can be projected again. */
  lemma {:induction false} ProjectionValid(v: Value, keyed: Keyed, path: string)
    requires WellFormed(v) && Projectable(v, keyed, path)
    ensures WellFormed(Project(v, keyed, path)) && Projectable(Project(v, keyed, path), keyed, path)
    ensures Accepted(Project(v, keyed, path))
  {
    match v
    case List(items) =>
      var vals := ProjectItems(items, keyed, path);
      forall x | x in vals
        ensures WellFormed(x) && Projectable(x, keyed, path) && Accepted(x)
        ensures FieldFor(keyed, path).Some? ==> HasField(x, FieldFor(keyed, path).value)
      {
        var i :| 0 <= i < |vals| && vals[i] == x;
        ProjectionValid(items[i], keyed, path);
        if FieldFor(keyed, path).Some? { ProjectedField(items[i], keyed, path, FieldFor(keyed, path).value); }
      }
      if FieldFor(keyed, path).Some? { SortKeepsMembers(ByField(FieldFor(keyed, path).value), vals); }
    case Dict(es) =>
      var fs := ProjectEntries(es, keyed, path);
      forall f | f in fs
        ensures WellFormed(f.value) && Projectable(f.value, keyed, ChildPath(path, f.key)) && Accepted(f.value)
      {
        var i :| 0 <= i < |fs| && fs[i] == f;
        ProjectionValid(es[i].value, keyed, ChildPath(path, es[i].key));
      }
      SortKeepsElements(EntryLess, fs);
      SortKeepsMembers(EntryLess, fs);
      DistinctKeysSurvive(fs, Sort(EntryLess, fs));
    case _ =>
  }

  /** Projecting twice is projecting once, whatever the array keys. */
  lemma {:induction false} ProjectionIdempotent(v: Value, keyed: Keyed, path: string)
    requires WellFormed(v) && Projectable(v, keyed, path)
    ensures Project(Project(v, keyed, path), keyed, path) == Project(v, keyed, path)
  {
    match v
    case List(items) =>
      var vals := ProjectItems(items, keyed, path);
      var out := Project(v, keyed, path).items;
      if FieldFor(keyed, path).Some? { SortKeepsMembers(ByField(FieldFor(keyed, path).value), vals); }
      forall k | 0 <= k < |out| ensures Project(out[k], keyed, path) == out[k] {
        assert out[k] in vals;
        var i :| 0 <= i < |vals| && vals[i] == out[k];
        ProjectionIdempotent(items[i], keyed, path);
      }
      assert ProjectItems(out, keyed, path) == out;
      if FieldFor(keyed, path).Some? {
        var f := FieldFor(keyed, path).value;
        FieldOrder(f);
        SortAscends(ByField(f), vals);
        SortOfAscending(ByField(f), out);
      }
    case Dict(es) =>
      var fs := ProjectEntries(es, keyed, path);
      var gs := Sort(EntryLess, fs);
      SortKeepsMembers(EntryLess, fs);
      forall k | 0 <= k < |gs| ensures ProjectEntries(gs, keyed, path)[k] == gs[k] {
        assert gs[k] in fs;
        var i :| 0 <= i < |fs| && fs[i] == gs[k];
        ProjectionIdempotent(es[i].value, keyed, ChildPath(path, es[i].key));
      }
      assert ProjectEntries(gs, keyed, path) == gs;
      EntryOrder();
      SortAscends(EntryLess, fs);
      SortOfAscending(EntryLess, gs);
    case _ =>
  }

  // ---- a projection forgets exactly the declared orders ----

  lemma {:induction false} ItemSetSize(xs: seq<Value>, f: string)
    requires DistinctFields(xs, f)
    ensures |set x | x in xs| == |xs|
  {
    if xs != [] {
      ItemSetSize(xs[1..], f);
      assert (set x | x in xs) == {xs[0]} + (set x | x in xs[1..]);
    }
  }

  /** Two arrays with distinct keys, of one length and one inside the other, sort to the same array. */
  lemma SortedArraysAgree(xs: seq<Value>, ys: seq<Value>, f: string)
    requires |xs| == |ys| && forall i | 0 <= i < |xs| :: xs[i] in ys
    requires DistinctFields(xs, f) && DistinctFields(ys, f)
    ensures Sort(ByField(f), xs) == Sort(ByField(f), ys)
  {
    var s, t := set x | x in xs, set x | x in ys;
    ItemSetSize(xs, f);
    ItemSetSize(ys, f);
    SubsetOfEqualSize(s, t);
    assert forall x :: x in xs <==> x in s;
    assert forall x :: x in ys <==> x in t;
    SortKeepsMembers(ByField(f), xs);
    SortKeepsMembers(ByField(f), ys);
    FieldOrder(f);
    SortedArrayStrict(xs, f);
    SortedArrayStrict(ys, f);
    StrictOrderIsUnique(ByField(f), Sort(ByField(f), xs), Sort(ByField(f), ys));
  }

  lemma SortedArrayStrict(xs: seq<Value>, f: string)
    requires DistinctFields(xs, f)
    ensures StrictlyAscending(ByField(f), Sort(ByField(f), xs))
  {
    var out := Sort(ByField(f), xs);
    FieldOrder(f);
    SortAscends(ByField(f), xs);
    SortKeepsElements(ByField(f), xs);
    forall i, j | 0 <= i < j < |out| ensures ByField(f)(out[i], out[j]) {
      StillDistinct(xs, out, f, i, j);
      Text.LessTotal(FieldText(out[i], f), FieldText(out[j], f));
    }
  }

  lemma StillDistinct(xs: seq<Value>, out: seq<Value>, f: string, i: nat, j: nat)
    requires DistinctFields(xs, f)
    requires multiset(xs) == multiset(out) && i < j < |out|
    ensures FieldText(out[i], f) != FieldText(out[j], f)
  {
    assert out[i] in multiset(out) && out[j] in multiset(out);
    var k :| 0 <= k < |xs| && xs[k] == out[i];
    var l :| 0 <= l < |xs| && xs[l] == out[j];
    if k == l {
      TwiceInSequence(out, i, j);
      OnceInSequence(xs, f, k);
    }
  }

  lemma OnceInSequence(xs: seq<Value>, f: string, k: nat)
    requires DistinctFields(xs, f)
    requires k < |xs|
    ensures multiset(xs)[xs[k]] == 1
  {
    assert xs == xs[..k] + [xs[k]] + xs[k+1..];
    assert xs[k] !in xs[..k] && xs[k] !in xs[k+1..];
  }

  lemma TwiceInSequence<T>(s: seq<T>, i: nat, j: nat)
    requires i < j < |s| && s[i] == s[j]
    ensures multiset(s)[s[i]] >= 2
  {
    assert s == s[..j] + [s[j]] + s[j+1..];
    assert s[..j][i] == s[i];
    assert multiset(s)[s[i]] == multiset(s[..j])[s[i]] + multiset([s[j]])[s[i]] + multiset(s[j+1..])[s[i]];
  }

  lemma {:induction false} AlikeMeansProjectedEqual(a: Value, b: Value, keyed: Keyed, path: string)
    requires WellFormed(a) && WellFormed(b)
    requires DistinctKeys(a, keyed, path) && DistinctKeys(b, keyed, path)
    requires Alike(a, b, keyed, path)
    ensures Project(a, keyed, path) == Project(b, keyed, path)
    decreases a, 1
  {
    match a
    case List(xs) => AlikeLists(xs, b.items, keyed, path);
    case Dict(ds) => AlikeDicts(ds, b.entries, keyed, path);
    case _ =>
  }

  lemma {:induction false} AlikeLists(xs: seq<Value>, ys: seq<Value>, keyed: Keyed, path: string)
    requires WellFormed(List(xs)) && WellFormed(List(ys))
    requires DistinctKeys(List(xs), keyed, path) && DistinctKeys(List(ys), keyed, path)
    requires Alike(List(xs), List(ys), keyed, path)
    ensures Project(List(xs), keyed, path) == Project(List(ys), keyed, path)
    decreases xs, 1
  {
    if FieldFor(keyed, path).Some? {
      forall i | 0 <= i < |xs| ensures Project(xs[i], keyed, path) in ProjectItems(ys, keyed, path) {
        MatchedItem(xs, ys, i, keyed, path);
      }
      SortedProjectionsAgree(xs, ys, keyed, path, FieldFor(keyed, path).value);
    } else {
      var ps, qs := ProjectItems(xs, keyed, path), ProjectItems(ys, keyed, path);
      forall i | 0 <= i < |xs| ensures ps[i] == qs[i] { AlikeMeansProjectedEqual(xs[i], ys[i], keyed, path); }
      assert ps == qs;
    }
  }

  lemma SortedProjectionsAgree(xs: seq<Value>, ys: seq<Value>, keyed: Keyed, path: string, f: string)
    requires |xs| == |ys|
    requires forall x | x in xs || x in ys :: WellFormed(x)
    requires DistinctFields(xs, f)
    requires DistinctFields(ys, f)
    requires forall i | 0 <= i < |xs| :: Project(xs[i], keyed, path) in ProjectItems(ys, keyed, path)
    ensures Sort(ByField(f), ProjectItems(xs, keyed, path)) == Sort(ByField(f), ProjectItems(ys, keyed, path))
  {
    ProjectedKeysDistinct(xs, keyed, path, f);
    ProjectedKeysDistinct(ys, keyed, path, f);
    SortedArraysAgree(ProjectItems(xs, keyed, path), ProjectItems(ys, keyed, path), f);
  }

  lemma {:induction false} MatchedItem(xs: seq<Value>, ys: seq<Value>, i: nat, keyed: Keyed, path: string)
    requires i < |xs| && ItemIn(xs[i], ys, keyed, path)
    requires WellFormed(xs[i]) && forall y | y in ys :: WellFormed(y)
    requires DistinctKeys(xs[i], keyed, path) && forall y | y in ys :: DistinctKeys(y, keyed, path)
    ensures Project(xs[i], keyed, path) in ProjectItems(ys, keyed, path)
    decreases xs, 0
  {
    var j :| 0 <= j < |ys| && Alike(xs[i], ys[j], keyed, path);
    AlikeMeansProjectedEqual(xs[i], ys[j], keyed, path);
    assert ProjectItems(ys, keyed, path)[j] == Project(xs[i], keyed, path);
  }

  lemma {:induction false} AlikeDicts(ds: seq<Entry>, es: seq<Entry>, keyed: Keyed, path: string)
    requires WellFormed(Dict(ds)) && WellFormed(Dict(es))
    requires DistinctKeys(Dict(ds), keyed, path) && DistinctKeys(Dict(es), keyed, path)
    requires Alike(Dict(ds), Dict(es), keyed, path)
    ensures Project(Dict(ds), keyed, path) == Project(Dict(es), keyed, path)
    decreases ds, 0
  {
    var fs, gs := ProjectEntries(ds, keyed, path), ProjectEntries(es, keyed, path);
    forall i | 0 <= i < |ds| ensures fs[i] in gs {
      assert EntryIn(ds[i], es, keyed, path);
      var j :| 0 <= j < |es| && ds[i].key == es[j].key
               && Alike(ds[i].value, es[j].value, keyed, ChildPath(path, ds[i].key));
      assert es[j] in es && ds[i] in ds;
      AlikeMeansProjectedEqual(ds[i].value, es[j].value, keyed, ChildPath(path, ds[i].key));
      assert gs[j] == fs[i];
    }
    SortedDictsAgree(fs, gs);
  }

  lemma SortedDictsAgree(fs: seq<Entry>, gs: seq<Entry>)
    requires |fs| == |gs| && forall i | 0 <= i < |fs| :: fs[i] in gs
    requires forall i, j | 0 <= i < j < |fs| :: fs[i].key != fs[j].key
    requires forall i, j | 0 <= i < j < |gs| :: gs[i].key != gs[j].key
    ensures Sort(EntryLess, fs) == Sort(EntryLess, gs)
  {
    SameMembers(fs, gs);
    SortKeepsMembers(EntryLess, fs);
    SortKeepsMembers(EntryLess, gs);
    DistinctSortsStrictly(fs);
    DistinctSortsStrictly(gs);
    EntryOrder();
    StrictOrderIsUnique(EntryLess, Sort(EntryLess, fs), Sort(EntryLess, gs));
  }

  lemma ProjectedKeysDistinct(xs: seq<Value>, keyed: Keyed, path: string, f: string)
    requires forall x | x in xs :: WellFormed(x)
    requires DistinctFields(xs, f)
    ensures DistinctFields(ProjectItems(xs, keyed, path), f)
  {
    forall i | 0 <= i < |xs| ensures FieldText(ProjectItems(xs, keyed, path)[i], f) == FieldText(xs[i], f) {
      ProjectedField(xs[i], keyed, path, f);
    }
  }

  lemma {:induction false} ProjectedEqualMeansAlike(a: Value, b: Value, keyed: Keyed, path: string)
    requires Project(a, keyed, path) == Project(b, keyed, path)
    ensures Alike(a, b, keyed, path)
    decreases a, 1
  {
    ProjectionKind(a, keyed, path);
    ProjectionKind(b, keyed, path);
    match a
    case List(xs) => EqualListsAlike(xs, b.items, keyed, path);
    case Dict(ds) => EqualDictsAlike(ds, b.entries, keyed, path);
    case _ =>
  }

  lemma {:induction false} EqualListsAlike(xs: seq<Value>, ys: seq<Value>, keyed: Keyed, path: string)
    requires Project(List(xs), keyed, path) == Project(List(ys), keyed, path)
    ensures Alike(List(xs), List(ys), keyed, path)
    decreases xs, 0
  {
    var ps, qs := ProjectItems(xs, keyed, path), ProjectItems(ys, keyed, path);
    if FieldFor(keyed, path).Some? {
      var less := ByField(FieldFor(keyed, path).value);
      SortMembersAgree(less, ps, qs);
      forall i | 0 <= i < |xs| ensures ItemIn(xs[i], ys, keyed, path) {
        assert ps[i] in qs;
        var j :| 0 <= j < |qs| && qs[j] == ps[i];
        ProjectedEqualMeansAlike(xs[i], ys[j], keyed, path);
      }
    } else {
      assert ps == qs;
      forall i | 0 <= i < |xs| ensures Alike(xs[i], ys[i], keyed, path) {
        assert ps[i] == qs[i];
        ProjectedEqualMeansAlike(xs[i], ys[i], keyed, path);
      }
    }
  }

  lemma SortMembersAgree<T>(less: (T, T) -> bool, ps: seq<T>, qs: seq<T>)
    requires Sort(less, ps) == Sort(less, qs)
    ensures |ps| == |qs| && forall x | x in ps :: x in qs
  {
    SortKeepsElements(less, ps);
    SortKeepsElements(less, qs);
    SortKeepsMembers(less, ps);
    SortKeepsMembers(less, qs);
  }

  lemma {:induction false} EqualDictsAlike(ds: seq<Entry>, es: seq<Entry>, keyed: Keyed, path: string)
    requires Project(Dict(ds), keyed, path) == Project(Dict(es), keyed, path)
    ensures Alike(Dict(ds), Dict(es), keyed, path)
    decreases ds, 0
  {
    var fs, gs := ProjectEntries(ds, keyed, path), ProjectEntries(es, keyed, path);
    SortMembersAgree(EntryLess, fs, gs);
    forall i | 0 <= i < |ds| ensures EntryIn(ds[i], es, keyed, path) {
      assert fs[i] in gs;
      var j :| 0 <= j < |gs| && gs[j] == fs[i];
      ProjectedEqualMeansAlike(ds[i].value, es[j].value, keyed, ChildPath(path, ds[i].key));
    }
  }

  lemma {:induction false} AlikeReflexive(v: Value, keyed: Keyed, path: string)
    ensures Alike(v, v, keyed, path)
  {
    match v
    case List(xs) =>
      forall i | 0 <= i < |xs| ensures Alike(xs[i], xs[i], keyed, path) && ItemIn(xs[i], xs, keyed, path) {
        AlikeReflexive(xs[i], keyed, path);
      }
    case Dict(es) =>
      forall i | 0 <= i < |es| ensures EntryIn(es[i], es, keyed, path) {
        AlikeReflexive(es[i].value, keyed, ChildPath(path, es[i].key));
      }
    case _ =>
  }

  /** Any reordering of a declared keyed array with distinct keys projects to the same value. */
  lemma ReorderedArray(xs: seq<Value>, ys: seq<Value>, keyed: Keyed, path: string)
    requires multiset(xs) == multiset(ys) && FieldFor(keyed, path).Some?
    requires WellFormed(List(xs)) && DistinctKeys(List(xs), keyed, path)
    requires WellFormed(List(ys)) && DistinctKeys(List(ys), keyed, path)
    ensures Project(List(xs), keyed, path) == Project(List(ys), keyed, path)
  {
    assert |multiset(xs)| == |xs| && |multiset(ys)| == |ys|;
    forall i | 0 <= i < |xs| ensures ItemIn(xs[i], ys, keyed, path) {
      assert xs[i] in multiset(xs);
      var j :| 0 <= j < |ys| && ys[j] == xs[i];
      AlikeReflexive(xs[i], keyed, path);
    }
    AlikeMeansProjectedEqual(List(xs), List(ys), keyed, path);
  }

  /** An undeclared array keeps its order: different element projections at one index are told apart. */
  lemma UndeclaredOrderKept(xs: seq<Value>, ys: seq<Value>, keyed: Keyed, path: string, i: nat)
    requires FieldFor(keyed, path).None? && i < |xs| && i < |ys|
    requires !Alike(xs[i], ys[i], keyed, path)
    ensures Project(List(xs), keyed, path) != Project(List(ys), keyed, path)
  {
    if Project(List(xs), keyed, path) == Project(List(ys), keyed, path) {
      ProjectedEqualMeansAlike(List(xs), List(ys), keyed, path);
      assert false;
    }
  }

  // ---- fingerprints ----

  /** Sorting by key does nothing to a value whose dicts are in key order already, such as a projection. */
  lemma {:induction false} SortedProjection(v: Value, keyed: Keyed, path: string)
    requires WellFormed(v)
    ensures Sorted(Project(v, keyed, path)) == Project(v, keyed, path)
  {
    match v
    case List(items) =>
      var vals := ProjectItems(items, keyed, path);
      var out := Project(v, keyed, path).items;
      if FieldFor(keyed, path).Some? { SortKeepsMembers(ByField(FieldFor(keyed, path).value), vals); }
      forall k | 0 <= k < |out| ensures Sorted(out[k]) == out[k] {
        assert out[k] in vals;
        var i :| 0 <= i < |vals| && vals[i] == out[k];
        SortedProjection(items[i], keyed, path);
      }
      assert SortedItems(out) == out;
    case Dict(es) =>
      var fs := ProjectEntries(es, keyed, path);
      var gs := Sort(EntryLess, fs);
      SortKeepsMembers(EntryLess, fs);
      forall k | 0 <= k < |gs| ensures SortedEntries(gs)[k] == gs[k] {
        assert gs[k] in fs;
        var i :| 0 <= i < |fs| && fs[i] == gs[k];
        SortedProjection(es[i].value, keyed, ChildPath(path, es[i].key));
      }
      assert SortedEntries(gs) == gs;
      EntryOrder();
      SortAscends(EntryLess, fs);
      SortOfAscending(EntryLess, gs);
    case _ =>
  }

  function Wrapped(f: string, p: Value): Value
  {
    Dict([Entry("family", Str(f)), Entry("projection", p)])
  }

  lemma WrappedSame(f: string, p: Value, g: string, q: Value)
    ensures Same(Wrapped(f, p), Wrapped(g, q)) <==> f == g && Same(p, q)
  {
    assert "family"[0] != "projection"[0];
    PairSame("family", Str(f), Str(g), "projection", p, q);
  }

  lemma PairSame(k: string, a: Value, b: Value, l: string, p: Value, q: Value)
    requires k != l
    ensures Same(Dict([Entry(k, a), Entry(l, p)]), Dict([Entry(k, b), Entry(l, q)])) <==> Same(a, b) && Same(p, q)
  {
    var ds, es := [Entry(k, a), Entry(l, p)], [Entry(k, b), Entry(l, q)];
    assert !SameEntry(ds[0], es[1]) && !SameEntry(ds[1], es[0]);
    assert EntryAmong(ds[0], es) <==> SameEntry(ds[0], es[0]);
    assert EntryAmong(ds[1], es) <==> SameEntry(ds[1], es[1]);
    assert Same(Dict(ds), Dict(es)) <==> EntryAmong(ds[0], es) && EntryAmong(ds[1], es);
  }

  lemma WrappedValid(f: string, p: Value)
    requires WellFormed(p) && Accepted(p)
    ensures WellFormed(Wrapped(f, p)) && Accepted(Wrapped(f, p))
  {
    assert "family"[0] != "projection"[0];
  }

  /** Two fingerprints hash the same bytes exactly when family and projection agree up to the declared orders. */
  lemma FingerprintIdentity(f: string, a: Value, g: string, b: Value, keyed: Keyed)
    requires WellFormed(a) && WellFormed(b) && Projectable(a, keyed, "") && Projectable(b, keyed, "")
    requires DistinctKeys(a, keyed, "") && DistinctKeys(b, keyed, "")
    ensures FingerprintText(f, a, keyed).Some?
    ensures FingerprintText(f, a, keyed) == FingerprintText(g, b, keyed) <==> f == g && Alike(a, b, keyed, "")
  {
    var p, q := Project(a, keyed, ""), Project(b, keyed, "");
    ProjectionValid(a, keyed, "");
    ProjectionValid(b, keyed, "");
    WrappedValid(f, p);
    WrappedValid(g, q);
    CanonicalIdentity(Wrapped(f, p), Wrapped(g, q));
    WrappedSame(f, p, g, q);
    if Same(p, q) {
      SameMeansSortedEqual(p, q);
      SortedProjection(a, keyed, "");
      SortedProjection(b, keyed, "");
      ProjectedEqualMeansAlike(a, b, keyed, "");
    }
    if Alike(a, b, keyed, "") {
      AlikeMeansProjectedEqual(a, b, keyed, "");
      SortedEqualMeansSame(p, q);
    }
  }

  // ---- what is declared, and the order that it means ----

  /** What follows the last dot. */
  lemma {:induction false} SegmentOf(path: string, dot: nat)
    requires dot < |path| && path[dot] == '.' && '.' !in path[dot+1..]
    ensures LastSegment(path) == path[dot+1..]
    decreases |path|
  {
    var n := |path| - 1;
    if dot < n {
      assert path[dot+1..] == path[dot+1..n] + [path[n]];
      assert path[..n][dot+1..] == path[dot+1..n];
      assert path[n] in path[dot+1..];
      SegmentOf(path[..n], dot);
    }
  }

  lemma {:induction false} NoDot(path: string)
    requires '.' !in path
    ensures LastSegment(path) == path
    decreases |path|
  {
    if path != "" {
      var n := |path| - 1;
      assert path == path[..n] + [path[n]];
      NoDot(path[..n]);
    }
  }

  /** An array is declared under its whole path, or else under what follows the last dot of it. */
  lemma DeclaredUnder(keyed: Keyed, path: string, dot: nat)
    requires dot < |path| && path[dot] == '.' && '.' !in path[dot+1..]
    ensures FieldFor(keyed, path) ==
              if path in keyed then Some(keyed[path])
              else if path[dot+1..] in keyed then Some(keyed[path[dot+1..]]) else None
  {
    SegmentOf(path, dot);
  }

  lemma DeclaredAtTop(keyed: Keyed, path: string)
    requires '.' !in path
    ensures FieldFor(keyed, path) == if path in keyed then Some(keyed[path]) else None
  {
    NoDot(path);
  }

  /** A projected array that is declared ascends in its field; the keys of a projected dictionary ascend. */
  lemma ProjectionAscends(v: Value, keyed: Keyed, path: string)
    requires WellFormed(v) && Projectable(v, keyed, path)
    ensures v.List? && FieldFor(keyed, path).Some? ==>
              var f, items := FieldFor(keyed, path).value, Project(v, keyed, path).items;
              forall i, j | 0 <= i < j < |items| :: !Text.Less(FieldText(items[j], f), FieldText(items[i], f))
    ensures v.Dict? ==>
              var es := Project(v, keyed, path).entries;
              forall i, j | 0 <= i < j < |es| :: Text.Less(es[i].key, es[j].key)
  {
    match v
    case List(items) =>
      if FieldFor(keyed, path).Some? {
        var f := FieldFor(keyed, path).value;
        FieldOrder(f);
        var vals := ProjectItems(items, keyed, path);
        SortAscends(ByField(f), vals);
        var sorted := Sort(ByField(f), vals);
        assert forall i, j | 0 <= i < j < |sorted| :: !ByField(f)(sorted[j], sorted[i]);
      }
    case Dict(es) =>
      var fs := ProjectEntries(es, keyed, path);
      DistinctSortsStrictly(fs);
      var gs := Sort(EntryLess, fs);
      assert forall i, j | 0 <= i < j < |gs| :: EntryLess(gs[i], gs[j]);
    case _ =>
  }

  // ---- when there is a projection ----

  /** The items that are no dictionaries with a string in field `f`. */
  function WithoutField(items: seq<Value>, f: string): nat
  {
    if items == [] then 0
    else
      WithoutField(items[1..], f)
      + if items[0].Dict? && exists i | 0 <= i < |items[0].entries| ::
             items[0].entries[i].key == f && items[0].entries[i].value.Str?
        then 0 else 1
  }

  /** How many faults a value has at any depth: values that JSON has not, and items of declared arrays without the field
      that they are declared to be ordered by. */
  function Faults(v: Value, keyed: Keyed, path: string): nat
    decreases v, 1
  {
    match v
    case Refused => 1
    case List(items) =>
      FaultsAmong(items, keyed, path)
      + (match FieldFor(keyed, path) case Some(f) => WithoutField(items, f) case None => 0)
    case Dict(es) => FaultsOf(es, keyed, path)
    case _ => 0
  }

  function FaultsAmong(items: seq<Value>, keyed: Keyed, path: string): nat
    decreases items, 0
  {
    if items == [] then 0 else Faults(items[0], keyed, path) + FaultsAmong(items[1..], keyed, path)
  }

  function FaultsOf(es: seq<Entry>, keyed: Keyed, path: string): nat
    decreases es, 0
  {
    if es == [] then 0
    else Faults(es[0].value, keyed, ChildPath(path, es[0].key)) + FaultsOf(es[1..], keyed, path)
  }

  /** A value is projected exactly if it has no fault. */
  lemma {:induction false} ProjectableExactlyIf(v: Value, keyed: Keyed, path: string)
    ensures Projectable(v, keyed, path) <==> Faults(v, keyed, path) == 0
    decreases v, 1
  {
    match v
    case List(items) =>
      ProjectableItems(items, keyed, path);
      if FieldFor(keyed, path).Some? { AllHaveField(items, FieldFor(keyed, path).value); }
    case Dict(es) => ProjectableEntries(es, keyed, path);
    case _ =>
  }

  lemma {:induction false} AllHaveField(items: seq<Value>, f: string)
    ensures (forall x | x in items :: HasField(x, f)) <==> WithoutField(items, f) == 0
  {
    if items != [] {
      AllHaveField(items[1..], f);
      FieldAt(items[0], f);
      assert items == [items[0]] + items[1..];
    }
  }

  lemma FieldAt(v: Value, f: string)
    ensures HasField(v, f) <==>
              v.Dict? && exists i | 0 <= i < |v.entries| :: v.entries[i].key == f && v.entries[i].value.Str?
  {
    if v.Dict? && exists e | e in v.entries :: e.key == f && e.value.Str? {
      var e :| e in v.entries && e.key == f && e.value.Str?;
      var i :| 0 <= i < |v.entries| && v.entries[i] == e;
    }
  }

  lemma {:induction false} ProjectableItems(items: seq<Value>, keyed: Keyed, path: string)
    ensures (forall x | x in items :: Projectable(x, keyed, path)) <==> FaultsAmong(items, keyed, path) == 0
    decreases items, 0
  {
    if items != [] {
      ProjectableExactlyIf(items[0], keyed, path);
      ProjectableItems(items[1..], keyed, path);
      assert items == [items[0]] + items[1..];
    }
  }

  lemma {:induction false} ProjectableEntries(es: seq<Entry>, keyed: Keyed, path: string)
    ensures (forall e | e in es :: Projectable(e.value, keyed, ChildPath(path, e.key)))
            <==> FaultsOf(es, keyed, path) == 0
    decreases es, 0
  {
    if es != [] {
      ProjectableExactlyIf(es[0].value, keyed, ChildPath(path, es[0].key));
      ProjectableEntries(es[1..], keyed, path);
      assert es == [es[0]] + es[1..];
    }
  }

  /** There is a fingerprint exactly for a projection without fault. */
  lemma FingerprintExactlyIf(family: string, v: Value, keyed: Keyed)
    requires WellFormed(v)
    ensures FingerprintText(family, v, keyed).Some? <==> Faults(v, keyed, "") == 0
  {
    ProjectableExactlyIf(v, keyed, "");
    if Projectable(v, keyed, "") {
      ProjectionValid(v, keyed, "");
      WrappedValid(family, Project(v, keyed, ""));
    }
  }
}
