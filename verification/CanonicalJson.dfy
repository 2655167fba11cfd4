/** `canonical_json` (policy/plans.py): compact JSON with sorted keys, as UTF-8 bytes. */
module CanonicalJson {
  import opened Prelude
  import opened StableSort
  import Text

  /**
   * A Python value as the canonicaliser sees it. A dict is its entries in insertion order. `Refused`
   * stands for everything answered with TypeError on sight: floats, dicts with a non-string key, other types.
   */
  datatype Value =
    | Null
    | Bool(b: bool)
    | Int(i: int)
    | Str(s: string)
    | Refused
    | List(items: seq<Value>)
    | Dict(entries: seq<Entry>)

  datatype Entry = Entry(key: string, value: Value)

  type Byte = n: int | 0 <= n < 256

  /** A dict never holds a key twice. */
  predicate WellFormed(v: Value)
  {
    match v
    case List(items) => forall x | x in items :: WellFormed(x)
    case Dict(es) =>
      && (forall i, j | 0 <= i < j < |es| :: es[i].key != es[j].key)
      && (forall e | e in es :: WellFormed(e.value))
    case _ => true
  }

  predicate Accepted(v: Value)
  {
    match v
    case Refused => false
    case List(items) => forall x | x in items :: Accepted(x)
    case Dict(es) => forall e | e in es :: Accepted(e.value)
    case _ => true
  }

  // ---- key order ----

  predicate EntryLess(a: Entry, b: Entry) { Text.Less(a.key, b.key) }

  lemma EntryOrder()
    ensures WeakOrder(EntryLess)
  {
    forall a: Entry, b: Entry ensures EntryLess(a, b) ==> !EntryLess(b, a) {
      if EntryLess(a, b) && EntryLess(b, a) {
        Text.LessTransitive(a.key, b.key, a.key);
        Text.LessIrreflexive(a.key);
        assert false;
      }
    }
    forall a: Entry, b: Entry, c: Entry ensures EntryLess(a, c) ==> EntryLess(a, b) || EntryLess(b, c) {
      Text.LessTotal(a.key, b.key);
      if EntryLess(b, a) && EntryLess(a, c) { Text.LessTransitive(b.key, a.key, c.key); }
    }
  }

  function Sorted(v: Value): Value
    decreases v, 1
  {
    match v
    case List(items) => List(SortedItems(items))
    case Dict(es) => Dict(Sort(EntryLess, SortedEntries(es)))
    case _ => v
  }

  function SortedItems(items: seq<Value>): (r: seq<Value>)
    ensures |r| == |items| && forall i | 0 <= i < |items| :: r[i] == Sorted(items[i])
    decreases items, 0
  {
    if items == [] then [] else [Sorted(items[0])] + SortedItems(items[1..])
  }

  function SortedEntries(es: seq<Entry>): (r: seq<Entry>)
    ensures |r| == |es| && forall i | 0 <= i < |es| :: r[i] == Entry(es[i].key, Sorted(es[i].value))
    decreases es, 0
  {
    if es == [] then [] else [Entry(es[0].key, Sorted(es[0].value))] + SortedEntries(es[1..])
  }

  // ---- the printer: json.dumps(..., ensure_ascii=False, separators=(",", ":")) ----

  function Digit(d: nat): char
    requires d < 10
  {
    ('0' as int + d) as char
  }

  function Decimal(n: nat): string
  {
    if n < 10 then [Digit(n)] else Decimal(n / 10) + [Digit(n % 10)]
  }

  function Integer(i: int): string
  {
    if i < 0 then ['-'] + Decimal(-i) else Decimal(i)
  }

  function Hex(d: nat): char
    requires d < 16
  {
    if d < 10 then ('0' as int + d) as char else ('a' as int + d - 10) as char
  }

  function EscapedChar(c: char): string
  {
    if c == '\"' then "\\\""
    else if c == '\\' then "\\\\"
    else if c == '\n' then "\\n"
    else if c == '\r' then "\\r"
    else if c == '\t' then "\\t"
    else if c as int == 8 then "\\b"
    else if c as int == 12 then "\\f"
    else if c as int < 32 then "\\u00" + [Hex(c as int / 16), Hex(c as int % 16)]
    else [c]
  }

  /** A quoted string followed by `k`; the printers below all take what follows them. */
  function StringThen(s: string, k: string): string
  {
    ['\"'] + CharsThen(s, k)
  }

  function CharsThen(s: string, k: string): string
  {
    if s == [] then ['\"'] + k else EscapedChar(s[0]) + CharsThen(s[1..], k)
  }

  function PrintThen(v: Value, k: string): string
    decreases v, 1
  {
    match v
    case Null => "null" + k
    case Bool(b) => (if b then "true" else "false") + k
    case Int(i) => Integer(i) + k
    case Str(s) => StringThen(s, k)
    case Refused => k
    case List(items) => ['['] + (if items == [] then [']'] + k else PrintThen(items[0], ItemsThen(items[1..], k)))
    case Dict(es) => ['{'] + (if es == [] then ['}'] + k else EntryThen(es[0], EntriesThen(es[1..], k)))
  }

  function EntryThen(e: Entry, k: string): string
    decreases e, 1
  {
    StringThen(e.key, [':'] + PrintThen(e.value, k))
  }

  function ItemsThen(items: seq<Value>, k: string): string
    decreases items, 0
  {
    if items == [] then [']'] + k else [','] + PrintThen(items[0], ItemsThen(items[1..], k))
  }

  function EntriesThen(es: seq<Entry>, k: string): string
    decreases es, 0
  {
    if es == [] then ['}'] + k else [','] + EntryThen(es[0], EntriesThen(es[1..], k))
  }

  function Print(v: Value): string { PrintThen(v, "") }

  // ---- UTF-8 ----

  function Utf8Char(c: char): seq<Byte>
  {
    var n := c as int;
    if n < 0x80 then [n]
    else if n < 0x800 then [0xC0 + n / 64, 0x80 + n % 64]
    else if n < 0x10000 then [0xE0 + n / 4096, 0x80 + n / 64 % 64, 0x80 + n % 64]
    else [0xF0 + n / 262144, 0x80 + n / 4096 % 64, 0x80 + n / 64 % 64, 0x80 + n % 64]
  }

  function Utf8(s: string): seq<Byte>
  {
    if s == [] then [] else Utf8Char(s[0]) + Utf8(s[1..])
  }

  /** None is TypeError. */
  function Canonical(v: Value): Option<seq<Byte>>
  {
    if Accepted(v) then Some(Utf8(Print(Sorted(v)))) else None
  }
}
