/**
 * A reader for what `canonical_json` writes, by the grammar of RFC 8259 (sections 2 to 7, without white space and
 * fractions) and the forms of RFC 3629, section 3: the canonical bytes of a value read back as that value.
 */
module CanonicalReader {
  import opened Prelude
  import opened StableSort
  import opened CanonicalJson
  import opened CanonicalJsonProofs
  import Text

  /** What is read off the front of a text, and the rest of it. */
  datatype Read<T> = Got(value: T, rest: string) | Bad

  // ---- strings ----

  function HexValue(c: char): Option<nat>
  {
    if '0' <= c <= '9' then Some(c as int - '0' as int)
    else if 'a' <= c <= 'f' then Some(c as int - 'a' as int + 10)
    else if 'A' <= c <= 'F' then Some(c as int - 'A' as int + 10)
    else None
  }

  /** Four hexadecimal digits. */
  function ReadHex(t: string): Read<char>
  {
    if |t| < 4 then Bad
    else
      var a, b, c, d := HexValue(t[0]), HexValue(t[1]), HexValue(t[2]), HexValue(t[3]);
      if a.None? || b.None? || c.None? || d.None? then Bad
      else
        var n := ((a.value * 16 + b.value) * 16 + c.value) * 16 + d.value;
        if n < 0xD800 || 0xE000 <= n < 0x10000 then Got(n as char, t[4..]) else Bad
  }

  /** What follows a backslash. */
  function ReadEscape(t: string): (r: Read<char>)
    ensures r.Got? ==> |r.rest| < |t|
  {
    if t == "" then Bad
    else match t[0]
      case '\"' => Got('\"', t[1..])
      case '\\' => Got('\\', t[1..])
      case '/' => Got('/', t[1..])
      case 'b' => Got(8 as char, t[1..])
      case 'f' => Got(12 as char, t[1..])
      case 'n' => Got('\n', t[1..])
      case 'r' => Got('\r', t[1..])
      case 't' => Got('\t', t[1..])
      case 'u' => ReadHex(t[1..])
      case _ => Bad
  }

  /** One character of a string, escaped or not; the closing quote is none. */
  function ReadChar(t: string): (r: Read<char>)
    ensures r.Got? ==> |r.rest| < |t|
  {
    if t == "" || t[0] == '\"' || t[0] as int < 32 then Bad
    else if t[0] == '\\' then ReadEscape(t[1..])
    else Got(t[0], t[1..])
  }

  /** The rest of a string, up to its closing quote. */
  function ReadChars(t: string): (r: Read<string>)
    ensures r.Got? ==> |r.rest| < |t|
    decreases |t|
  {
    if t != "" && t[0] == '\"' then Got("", t[1..])
    else match ReadChar(t)
      case Bad => Bad
      case Got(c, rest) =>
        match ReadChars(rest)
        case Bad => Bad
        case Got(s, more) => Got([c] + s, more)
  }

  // ---- numbers ----

  function DigitValue(c: char): nat
    requires Text.IsDigit(c)
  {
    c as int - '0' as int
  }

  function NatOf(s: string): nat
    requires forall i | 0 <= i < |s| :: Text.IsDigit(s[i])
  {
    if s == "" then 0 else NatOf(s[..|s|-1]) * 10 + DigitValue(s[|s|-1])
  }

  /** Digits without a superfluous zero in front. */
  function ReadNat(t: string): (r: Read<nat>)
    ensures r.Got? ==> |r.rest| < |t|
  {
    var n := Text.Digits(t);
    Text.DigitsAre(t);
    if n == 0 || (n > 1 && t[0] == '0') then Bad else Got(NatOf(t[..n]), t[n..])
  }

  function ReadInt(t: string): (r: Read<int>)
    ensures r.Got? ==> |r.rest| < |t|
  {
    if t != "" && t[0] == '-' then
      match ReadNat(t[1..])
      case Bad => Bad
      case Got(n, rest) => var i: int := n; Got(-i, rest)
    else
      match ReadNat(t)
      case Bad => Bad
      case Got(n, rest) => Got(n, rest)
  }

  // ---- values ----

  function ReadValue(t: string): (r: Read<Value>)
    ensures r.Got? ==> |r.rest| < |t|
    decreases |t|, 2
  {
    if "null" <= t then Got(Null, t[4..])
    else if "true" <= t then Got(Bool(true), t[4..])
    else if "false" <= t then Got(Bool(false), t[5..])
    else if t == "" then Bad
    else if t[0] == '\"' then
      match ReadChars(t[1..])
      case Bad => Bad
      case Got(s, rest) => Got(Str(s), rest)
    else if t[0] == '[' then
      match ReadFirstItem(t[1..])
      case Bad => Bad
      case Got(items, rest) => Got(List(items), rest)
    else if t[0] == '{' then
      match ReadFirstEntry(t[1..])
      case Bad => Bad
      case Got(es, rest) => Got(Dict(es), rest)
    else
      match ReadInt(t)
      case Bad => Bad
      case Got(i, rest) => Got(Int(i), rest)
  }

  /** The items of an array, from behind its bracket. */
  function ReadFirstItem(t: string): (r: Read<seq<Value>>)
    ensures r.Got? ==> |r.rest| < |t|
    decreases |t|, 3
  {
    if t != "" && t[0] == ']' then Got([], t[1..])
    else match ReadValue(t)
      case Bad => Bad
      case Got(v, rest) =>
        match ReadItems(rest)
        case Bad => Bad
        case Got(items, more) => Got([v] + items, more)
  }

  /** The items that follow an item. */
  function ReadItems(t: string): (r: Read<seq<Value>>)
    ensures r.Got? ==> |r.rest| < |t|
    decreases |t|, 0
  {
    if t == "" then Bad
    else if t[0] == ']' then Got([], t[1..])
    else if t[0] != ',' then Bad
    else match ReadValue(t[1..])
      case Bad => Bad
      case Got(v, rest) =>
        match ReadItems(rest)
        case Bad => Bad
        case Got(items, more) => Got([v] + items, more)
  }

  function ReadEntry(t: string): (r: Read<Entry>)
    ensures r.Got? ==> |r.rest| < |t|
    decreases |t|, 0
  {
    if t == "" || t[0] != '\"' then Bad
    else match ReadChars(t[1..])
      case Bad => Bad
      case Got(key, rest) =>
        if rest == "" || rest[0] != ':' then Bad
        else match ReadValue(rest[1..])
          case Bad => Bad
          case Got(v, more) => Got(Entry(key, v), more)
  }

  function ReadFirstEntry(t: string): (r: Read<seq<Entry>>)
    ensures r.Got? ==> |r.rest| < |t|
    decreases |t|, 3
  {
    if t != "" && t[0] == '}' then Got([], t[1..])
    else match ReadEntry(t)
      case Bad => Bad
      case Got(e, rest) =>
        match ReadEntries(rest)
        case Bad => Bad
        case Got(es, more) => Got([e] + es, more)
  }

  function ReadEntries(t: string): (r: Read<seq<Entry>>)
    ensures r.Got? ==> |r.rest| < |t|
    decreases |t|, 0
  {
    if t == "" then Bad
    else if t[0] == '}' then Got([], t[1..])
    else if t[0] != ',' then Bad
    else match ReadEntry(t[1..])
      case Bad => Bad
      case Got(e, rest) =>
        match ReadEntries(rest)
        case Bad => Bad
        case Got(es, more) => Got([e] + es, more)
  }

  // ---- strings read back ----

  lemma HexReads(d: nat)
    requires d < 16
    ensures HexValue(Hex(d)) == Some(d)
  {}

  lemma ControlReads(c: char, k: string)
    requires c as int < 32
    ensures ReadHex("00" + [Hex(c as int / 16), Hex(c as int % 16)] + k) == Got(c, k)
  {
    var n := c as int;
    HexReads(n / 16);
    HexReads(n % 16);
    var t := "00" + [Hex(n / 16), Hex(n % 16)] + k;
    assert t[0] == '0' && t[1] == '0' && t[2] == Hex(n / 16) && t[3] == Hex(n % 16) && t[4..] == k;
    assert HexValue('0') == Some(0) && n / 16 * 16 + n % 16 == n;
  }

  lemma CharReads(c: char, k: string)
    ensures ReadChar(EscapedChar(c) + k) == Got(c, k)
    ensures EscapedChar(c)[0] != '\"'
  {
    var e := EscapedChar(c);
    var t := e + k;
    assert t[0] == e[0];
    if e == [c] {
      assert t[1..] == k;
    } else if |e| == 2 {
      assert t[1..][0] == e[1] && t[1..][1..] == k;
    } else {
      assert e == "\\u00" + [Hex(c as int / 16), Hex(c as int % 16)];
      ControlReads(c, k);
      assert t[1..][0] == 'u' && t[1..][1..] == "00" + [Hex(c as int / 16), Hex(c as int % 16)] + k;
    }
  }

  lemma {:induction false} CharsRead(s: string, k: string)
    ensures ReadChars(CharsThen(s, k)) == Got(s, k)
  {
    if s == [] {
      assert CharsThen(s, k)[1..] == k;
    } else {
      CharReads(s[0], CharsThen(s[1..], k));
      CharsRead(s[1..], k);
      assert CharsThen(s, k)[0] == EscapedChar(s[0])[0];
      assert [s[0]] + s[1..] == s;
    }
  }

  // ---- numbers read back ----

  lemma {:induction false} DecimalReads(n: nat)
    ensures forall i | 0 <= i < |Decimal(n)| :: Text.IsDigit(Decimal(n)[i])
    ensures NatOf(Decimal(n)) == n && |Decimal(n)| > 0 && (|Decimal(n)| > 1 ==> Decimal(n)[0] != '0')
  {
    DecimalDigits(n);
    if n >= 10 {
      DecimalReads(n / 10);
      var s := Decimal(n);
      assert s[..|s|-1] == Decimal(n / 10) && s[|s|-1] == Digit(n % 10);
      if |Decimal(n / 10)| == 1 { NoLeadingZero(n / 10); }
    } else {
      assert Decimal(n)[..0] == "";
    }
  }

  lemma NoLeadingZero(n: nat)
    requires n > 0 && |Decimal(n)| == 1
    ensures Decimal(n)[0] != '0'
  {
    if n >= 10 { DecimalDigits(n / 10); }
  }

  lemma NatReads(n: nat, k: string)
    requires Stops(k)
    ensures ReadNat(Decimal(n) + k) == Got(n, k)
  {
    DecimalReads(n);
    Text.DigitsEnd(Decimal(n), k);
    var t := Decimal(n) + k;
    assert t[..|Decimal(n)|] == Decimal(n) && t[|Decimal(n)|..] == k && t[0] == Decimal(n)[0];
  }

  lemma Tail(c: char, s: string)
    ensures ([c] + s)[0] == c && ([c] + s)[1..] == s
  {}

  lemma NegativeReads(n: int, k: string)
    requires n >= 0 && Stops(k)
    ensures ReadInt(['-'] + Decimal(n) + k) == Got(-n, k)
  {
    Associate(['-'], Decimal(n), k);
    Tail('-', Decimal(n) + k);
    NatReads(n, k);
  }

  lemma PositiveReads(n: nat, k: string)
    requires Stops(k)
    ensures ReadInt(Decimal(n) + k) == Got(n, k)
  {
    DecimalReads(n);
    assert (Decimal(n) + k)[0] == Decimal(n)[0];
    NatReads(n, k);
  }

  lemma IntReads(i: int, k: string)
    requires Stops(k)
    ensures ReadInt(Integer(i) + k) == Got(i, k)
  {
    if i < 0 { NegativeReads(-i, k); } else { PositiveReads(i, k); }
  }

  // ---- values read back ----

  lemma WordReads(v: Value, k: string)
    requires v.Null? || v.Bool?
    ensures ReadValue(PrintThen(v, k)) == Got(v, k)
  {
    var t := PrintThen(v, k);
    match v
    case Null => assert "null" <= t && t[4..] == k;
    case Bool(b) =>
      if b {
        assert t[0] == 't' && "true" <= t && t[4..] == k;
      } else {
        assert t[0] == 'f' && "false" <= t && t[5..] == k;
      }
    case _ =>
  }

  /** The first character tells which kind of value is read. */
  lemma KindIsRead(t: string)
    requires t != "" && (t[0] == '\"' || t[0] == '[' || t[0] == '{' || t[0] == '-' || Text.IsDigit(t[0]))
    ensures !("null" <= t) && !("true" <= t) && !("false" <= t)
  {
    assert "null"[0] == 'n' && "true"[0] == 't' && "false"[0] == 'f';
  }

  lemma {:induction false} ValueReads(v: Value, k: string)
    requires Accepted(v) && Stops(k)
    ensures ReadValue(PrintThen(v, k)) == Got(v, k)
    decreases v, 1
  {
    var t := PrintThen(v, k);
    match v
    case Null => WordReads(v, k);
    case Bool(b) => WordReads(v, k);
    case Int(i) =>
      Sign(i);
      assert t[0] == Integer(i)[0];
      KindIsRead(t);
      IntReads(i, k);
    case Str(s) =>
      KindIsRead(t);
      assert t[1..] == CharsThen(s, k);
      CharsRead(s, k);
    case List(items) =>
      KindIsRead(t);
      ListReads(items, k);
    case Dict(es) =>
      KindIsRead(t);
      DictReads(es, k);
    case Refused =>
  }

  lemma FirstItemReads(t: string, v: Value, rest: string, items: seq<Value>, k: string)
    requires t != "" && t[0] != ']' && ReadValue(t) == Got(v, rest) && ReadItems(rest) == Got(items, k)
    ensures ReadFirstItem(t) == Got([v] + items, k)
  {}

  lemma NextItemReads(t: string, v: Value, rest: string, items: seq<Value>, k: string)
    requires t != "" && t[0] == ',' && ReadValue(t[1..]) == Got(v, rest) && ReadItems(rest) == Got(items, k)
    ensures ReadItems(t) == Got([v] + items, k)
  {}

  lemma FirstEntryReads(t: string, e: Entry, rest: string, es: seq<Entry>, k: string)
    requires t != "" && t[0] != '}' && ReadEntry(t) == Got(e, rest) && ReadEntries(rest) == Got(es, k)
    ensures ReadFirstEntry(t) == Got([e] + es, k)
  {}

  lemma NextEntryReads(t: string, e: Entry, rest: string, es: seq<Entry>, k: string)
    requires t != "" && t[0] == ',' && ReadEntry(t[1..]) == Got(e, rest) && ReadEntries(rest) == Got(es, k)
    ensures ReadEntries(t) == Got([e] + es, k)
  {}

  lemma HeadAndTail<T>(s: seq<T>)
    requires s != []
    ensures [s[0]] + s[1..] == s
  {}

  lemma {:induction false} ListReads(items: seq<Value>, k: string)
    requires Stops(k) && forall x | x in items :: Accepted(x)
    ensures ReadFirstItem(PrintThen(List(items), k)[1..]) == Got(items, k)
    decreases items, 0
  {
    var t := PrintThen(List(items), k)[1..];
    if items == [] {
      Tail('[', [']'] + k);
      Tail(']', k);
    } else {
      var rest := ItemsThen(items[1..], k);
      Tail('[', PrintThen(items[0], rest));
      ItemsStop(items[1..], k);
      FirstChar(items[0], rest);
      ValueReads(items[0], rest);
      ItemsRead(items[1..], k);
      FirstItemReads(t, items[0], rest, items[1..], k);
      HeadAndTail(items);
    }
  }

  lemma {:induction false} ItemsRead(items: seq<Value>, k: string)
    requires Stops(k) && forall x | x in items :: Accepted(x)
    ensures ReadItems(ItemsThen(items, k)) == Got(items, k)
    decreases items, 0
  {
    var t := ItemsThen(items, k);
    if items == [] {
      assert t[1..] == k;
    } else {
      var rest := ItemsThen(items[1..], k);
      ItemsStop(items[1..], k);
      ValueReads(items[0], rest);
      ItemsRead(items[1..], k);
      Tail(',', PrintThen(items[0], rest));
      NextItemReads(t, items[0], rest, items[1..], k);
      HeadAndTail(items);
    }
  }

  lemma {:induction false} EntryReads(e: Entry, k: string)
    requires Stops(k) && Accepted(e.value)
    ensures ReadEntry(EntryThen(e, k)) == Got(e, k)
    ensures EntryThen(e, k)[0] == '\"'
    decreases e, 0
  {
    var t := EntryThen(e, k);
    var rest := [':'] + PrintThen(e.value, k);
    assert t[1..] == CharsThen(e.key, rest);
    CharsRead(e.key, rest);
    assert rest[1..] == PrintThen(e.value, k);
    ValueReads(e.value, k);
  }

  lemma {:induction false} DictReads(es: seq<Entry>, k: string)
    requires Stops(k) && forall e | e in es :: Accepted(e.value)
    ensures ReadFirstEntry(PrintThen(Dict(es), k)[1..]) == Got(es, k)
    decreases es, 0
  {
    var t := PrintThen(Dict(es), k)[1..];
    if es == [] {
      Tail('{', ['}'] + k);
      Tail('}', k);
    } else {
      var rest := EntriesThen(es[1..], k);
      Tail('{', EntryThen(es[0], rest));
      EntriesStop(es[1..], k);
      EntryReads(es[0], rest);
      EntriesRead(es[1..], k);
      FirstEntryReads(t, es[0], rest, es[1..], k);
      HeadAndTail(es);
    }
  }

  lemma {:induction false} EntriesRead(es: seq<Entry>, k: string)
    requires Stops(k) && forall e | e in es :: Accepted(e.value)
    ensures ReadEntries(EntriesThen(es, k)) == Got(es, k)
    decreases es, 0
  {
    var t := EntriesThen(es, k);
    if es == [] {
      assert t[1..] == k;
    } else {
      var rest := EntriesThen(es[1..], k);
      EntriesStop(es[1..], k);
      EntryReads(es[0], rest);
      EntriesRead(es[1..], k);
      Tail(',', EntryThen(es[0], rest));
      NextEntryReads(t, es[0], rest, es[1..], k);
      HeadAndTail(es);
    }
  }

  // ---- bytes ----

  /** A continuation byte carries six bits. */
  predicate Continues(b: Byte) { 0x80 <= b < 0xC0 }

  predicate Scalar(n: int) { 0 <= n < 0xD800 || 0xE000 <= n < 0x110000 }

  function Six(high: int, b: int): int { high * 64 + (b - 0x80) }

  function Lead(b: int, mark: int): int { b - mark }

  /** The code point at the front, and the number of bytes that it takes. */
  function CodePoint(bs: seq<Byte>): Option<(int, nat)>
  {
    if bs == [] then None
    else if bs[0] < 0x80 then Some((bs[0], 1))
    else if 0xC0 <= bs[0] < 0xE0 && |bs| >= 2 && Continues(bs[1]) then
      Some((Six(Lead(bs[0], 0xC0), bs[1]), 2))
    else if 0xE0 <= bs[0] < 0xF0 && |bs| >= 3 && Continues(bs[1]) && Continues(bs[2]) then
      Some((Six(Six(Lead(bs[0], 0xE0), bs[1]), bs[2]), 3))
    else if 0xF0 <= bs[0] < 0xF8 && |bs| >= 4 && Continues(bs[1]) && Continues(bs[2]) && Continues(bs[3]) then
      Some((Six(Six(Six(Lead(bs[0], 0xF0), bs[1]), bs[2]), bs[3]), 4))
    else None
  }

  function Decode(bs: seq<Byte>): Option<string>
  {
    if bs == [] then Some("")
    else
      var p := CodePoint(bs);
      if p.None? || !Scalar(p.value.0) || p.value.1 > |bs| || p.value.1 == 0 then None
      else
        var rest := Decode(bs[p.value.1..]);
        if rest.None? then None else Some([p.value.0 as char] + rest.value)
  }

  lemma CharDecodes(c: char, k: seq<Byte>)
    ensures CodePoint(Utf8Char(c) + k) == Some((c as int, |Utf8Char(c)|))
  {
    var e, bs := Utf8Char(c), Utf8Char(c) + k;
    FromSextets(c as int);
    assert forall i | 0 <= i < |e| :: bs[i] == e[i];
  }

  lemma {:induction false} Decodes(s: string)
    ensures Decode(Utf8(s)) == Some(s)
  {
    if s != [] {
      var e, k := Utf8Char(s[0]), Utf8(s[1..]);
      CharDecodes(s[0], k);
      Decodes(s[1..]);
      assert (e + k)[|e|..] == k;
      assert [s[0]] + s[1..] == s;
    }
  }

  // ---- the canonical form ----

  /** Keys ascend in every dictionary. */
  predicate KeysAscend(v: Value)
  {
    match v
    case List(items) => forall x | x in items :: KeysAscend(x)
    case Dict(es) =>
      && (forall i, j | 0 <= i < j < |es| :: Text.Less(es[i].key, es[j].key))
      && (forall e | e in es :: KeysAscend(e.value))
    case _ => true
  }

  lemma {:induction false} SortedAscends(v: Value)
    requires WellFormed(v)
    ensures KeysAscend(Sorted(v))
  {
    match v
    case List(items) => forall x | x in items ensures KeysAscend(Sorted(x)) { SortedAscends(x); }
    case Dict(es) =>
      var fs := SortedEntries(es);
      SortedEntriesStrict(es);
      SortKeepsMembers(EntryLess, fs);
      forall i | 0 <= i < |es| ensures KeysAscend(fs[i].value) { SortedAscends(es[i].value); }
      var gs := Sort(EntryLess, fs);
      assert forall i, j | 0 <= i < j < |gs| :: EntryLess(gs[i], gs[j]);
    case _ =>
  }

  lemma {:induction false} SameAsSorted(v: Value)
    ensures Same(v, Sorted(v))
  {
    match v
    case List(items) =>
      forall i | 0 <= i < |items| ensures Same(items[i], SortedItems(items)[i]) { SameAsSorted(items[i]); }
    case Dict(es) =>
      var fs := SortedEntries(es);
      SortKeepsElements(EntryLess, fs);
      SortKeepsMembers(EntryLess, fs);
      var gs := Sort(EntryLess, fs);
      forall i | 0 <= i < |es| ensures EntryAmong(es[i], gs) {
        assert fs[i] in gs;
        var j :| 0 <= j < |gs| && gs[j] == fs[i];
        SameAsSorted(es[i].value);
        assert SameEntry(es[i], gs[j]);
      }
    case _ =>
  }

  /** How many values in `v` are of a kind that JSON has not. */
  function RefusedIn(v: Value): nat
    decreases v, 1
  {
    match v
    case Refused => 1
    case List(items) => RefusedAmong(items)
    case Dict(es) => RefusedOf(es)
    case _ => 0
  }

  function RefusedAmong(items: seq<Value>): nat
    decreases items, 0
  {
    if items == [] then 0 else RefusedIn(items[0]) + RefusedAmong(items[1..])
  }

  function RefusedOf(es: seq<Entry>): nat
    decreases es, 0
  {
    if es == [] then 0 else RefusedIn(es[0].value) + RefusedOf(es[1..])
  }

  /** There is a canonical form exactly if `v` holds no such value, at any depth. */
  lemma CanonicalExactlyIf(v: Value)
    ensures Canonical(v).Some? <==> RefusedIn(v) == 0
  {
    AcceptedMeans(v);
  }

  lemma {:induction false} AcceptedMeans(v: Value)
    ensures Accepted(v) <==> RefusedIn(v) == 0
    decreases v, 1
  {
    match v
    case List(items) => AcceptedItems(items);
    case Dict(es) => AcceptedEntries(es);
    case _ =>
  }

  lemma {:induction false} AcceptedItems(items: seq<Value>)
    ensures (forall x | x in items :: Accepted(x)) <==> RefusedAmong(items) == 0
    decreases items, 0
  {
    if items != [] {
      AcceptedMeans(items[0]);
      AcceptedItems(items[1..]);
      assert items == [items[0]] + items[1..];
    }
  }

  lemma {:induction false} AcceptedEntries(es: seq<Entry>)
    ensures (forall e | e in es :: Accepted(e.value)) <==> RefusedOf(es) == 0
    decreases es, 0
  {
    if es != [] {
      AcceptedMeans(es[0].value);
      AcceptedEntries(es[1..]);
      assert es == [es[0]] + es[1..];
    }
  }

  /** What the bytes say, if they are the UTF-8 form of a JSON text. */
  function ReadBytes(bs: seq<Byte>): Option<Value>
  {
    var text := Decode(bs);
    if text.None? then None
    else match ReadValue(text.value)
      case Bad => None
      case Got(v, rest) => if rest == "" then Some(v) else None
  }

  /** The canonical bytes of a value are a JSON text that reads back as the value, with the keys of every dictionary in
      ascending order. */
  lemma CanonicalReadsBack(v: Value) returns (w: Value)
    requires WellFormed(v) && Accepted(v)
    ensures Canonical(v).Some? && ReadBytes(Canonical(v).value) == Some(w)
    ensures Same(v, w) && KeysAscend(w)
  {
    w := Sorted(v);
    SortedAccepted(v);
    Decodes(Print(w));
    ValueReads(w, "");
    SameAsSorted(v);
    SortedAscends(v);
  }
}
