/** `_normalize_projection` and `canonical_fingerprint` (policy/plans.py). */
module Projection {
  import opened Prelude
  import opened StableSort
  import opened CanonicalJson
  import opened CanonicalJsonProofs
  import Text

  /** Declared keyed arrays: a path (or its last segment) to the field that orders the array. */
  type Keyed = map<string, string>

  function ChildPath(path: string, key: string): string
  {
    if path == "" then key else path + "." + key
  }

  /** `path.rsplit(".", 1)[-1]`. */
  function LastSegment(path: string): string
  {
    if path == "" then "" else if path[|path|-1] == '.' then "" else LastSegment(path[..|path|-1]) + [path[|path|-1]]
  }

  function FieldFor(keyed: Keyed, path: string): Option<string>
  {
    if path in keyed then Some(keyed[path])
    else if LastSegment(path) in keyed then Some(keyed[LastSegment(path)])
    else None
  }

  predicate HasField(v: Value, field: string)
  {
    v.Dict? && exists e | e in v.entries :: e.key == field && e.value.Str?
  }

  /** `v[field]`; the empty string where there is no such string field. */
  function FieldText(v: Value, field: string): string
  {
    if v.Dict? then FieldOf(v.entries, field) else ""
  }

  function FieldOf(es: seq<Entry>, field: string): string
  {
    if es == [] then ""
    else if es[0].key == field && es[0].value.Str? then es[0].value.s
    else FieldOf(es[1..], field)
  }

  /** Where `_normalize_projection` raises no TypeError. */
  predicate Projectable(v: Value, keyed: Keyed, path: string)
    decreases v
  {
    match v
    case Refused => false
    case List(items) =>
      && (forall x | x in items :: Projectable(x, keyed, path))
      && (FieldFor(keyed, path).Some? ==> forall x | x in items :: HasField(x, FieldFor(keyed, path).value))
    case Dict(es) => forall e | e in es :: Projectable(e.value, keyed, ChildPath(path, e.key))
    case _ => true
  }

  function ByField(field: string): (Value, Value) -> bool
  {
    (a, b) => Text.Less(FieldText(a, field), FieldText(b, field))
  }

  function Project(v: Value, keyed: Keyed, path: string): Value
    decreases v, 1
  {
    match v
    case List(items) =>
      var vals := ProjectItems(items, keyed, path);
      (match FieldFor(keyed, path)
       case Some(f) => List(Sort(ByField(f), vals))
       case None => List(vals))
    case Dict(es) => Dict(Sort(EntryLess, ProjectEntries(es, keyed, path)))
    case _ => v
  }

  function ProjectItems(items: seq<Value>, keyed: Keyed, path: string): (r: seq<Value>)
    ensures |r| == |items| && forall i | 0 <= i < |items| :: r[i] == Project(items[i], keyed, path)
    decreases items, 0
  {
    if items == [] then [] else [Project(items[0], keyed, path)] + ProjectItems(items[1..], keyed, path)
  }

  function ProjectEntries(es: seq<Entry>, keyed: Keyed, path: string): (r: seq<Entry>)
    ensures |r| == |es|
    ensures forall i | 0 <= i < |es| ::
              r[i] == Entry(es[i].key, Project(es[i].value, keyed, ChildPath(path, es[i].key)))
    decreases es, 0
  {
    if es == [] then []
    else
      var first := Entry(es[0].key, Project(es[0].value, keyed, ChildPath(path, es[0].key)));
      [first] + ProjectEntries(es[1..], keyed, path)
  }

  /** The bytes that `canonical_fingerprint` hashes; None is TypeError. */
  function FingerprintText(family: string, projection: Value, keyed: Keyed): Option<seq<Byte>>
  {
    if Projectable(projection, keyed, "") then
    Canonical(Dict([Entry("family", Str(family)), Entry("projection", Project(projection, keyed, ""))]))
    else None
  }
}
