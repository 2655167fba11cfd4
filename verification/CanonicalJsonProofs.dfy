/** `canonical_json` loses nothing but dict order, and forgets dict order entirely. */
module CanonicalJsonProofs {
  import opened Prelude
  import opened StableSort
  import opened CanonicalJson
  import Text

  /** Type-strict equality of Python values up to the order of dict entries. */
  predicate Same(a: Value, b: Value)
    decreases a
  {
    match a
    case List(xs) =>
      && b.List? && |xs| == |b.items|
      && forall i | 0 <= i < |xs| :: Same(xs[i], b.items[i])
    case Dict(es) =>
      && b.Dict? && |es| == |b.entries|
      && forall i | 0 <= i < |es| :: EntryAmong(es[i], b.entries)
    case _ => a == b
  }

  predicate EntryAmong(d: Entry, es: seq<Entry>)
    decreases d, 1
  {
    exists j | 0 <= j < |es| :: SameEntry(d, es[j])
  }

  predicate SameEntry(d: Entry, e: Entry)
    decreases d, 0
  {
    d.key == e.key && Same(d.value, e.value)
  }

  // ---- no two texts run together: equal texts hold equal values and equal remainders ----

  lemma Cancel<T>(s: seq<T>, x: seq<T>, t: seq<T>, y: seq<T>)
    requires s + x == t + y && |s| == |t|
    ensures s == t && x == y
  {
    assert s == (s + x)[..|s|] == (t + y)[..|t|] == t;
    assert x == (s + x)[|s|..] == (t + y)[|t|..] == y;
  }

  lemma SameHead<T>(s: seq<T>, x: seq<T>, t: seq<T>, y: seq<T>, i: nat)
    requires s + x == t + y && i < |s| && i < |t|
    ensures s[i] == t[i]
  {
    assert s[i] == (s + x)[i] == (t + y)[i] == t[i];
  }

  /** What may follow a printed value: nothing, or a character that is not a digit. */
  predicate Stops(x: string) { x == "" || !Text.IsDigit(x[0]) }

  lemma {:induction false} DecimalDigits(n: nat)
    ensures |Decimal(n)| > 0 && forall i | 0 <= i < |Decimal(n)| :: Text.IsDigit(Decimal(n)[i])
  {
    if n >= 10 { DecimalDigits(n / 10); }
  }

  lemma {:induction false} DecimalInjective(m: nat, n: nat)
    requires Decimal(m) == Decimal(n)
    ensures m == n
  {
    DecimalDigits(m / 10);
    DecimalDigits(n / 10);
    if m >= 10 && n >= 10 {
      Cancel(Decimal(m / 10), [Digit(m % 10)], Decimal(n / 10), [Digit(n % 10)]);
      DecimalInjective(m / 10, n / 10);
    }
  }

  /** A run of digits ends where the digits end. */
  lemma RunOfDigits(s: string, x: string, t: string, y: string)
    requires s + x == t + y && Stops(x) && forall i | 0 <= i < |t| :: Text.IsDigit(t[i])
    ensures |t| <= |s|
  {
    if |s| < |t| { AtSplit(s, x, t, y); }
  }

  lemma AtSplit<T>(s: seq<T>, x: seq<T>, t: seq<T>, y: seq<T>)
    requires s + x == t + y && |s| < |t|
    ensures |x| > 0 && x[0] == t[|s|]
  {
    assert t[|s|] == (t + y)[|s|] == (s + x)[|s|];
  }

  lemma DecimalUnique(m: nat, n: nat, x: string, y: string)
    requires Decimal(m) + x == Decimal(n) + y && Stops(x) && Stops(y)
    ensures m == n && x == y
  {
    DecimalDigits(m);
    DecimalDigits(n);
    RunOfDigits(Decimal(m), x, Decimal(n), y);
    RunOfDigits(Decimal(n), y, Decimal(m), x);
    Cancel(Decimal(m), x, Decimal(n), y);
    DecimalInjective(m, n);
  }

  lemma NegativeUnique(m: nat, n: nat, x: string, y: string)
    requires ['-'] + Decimal(m) + x == ['-'] + Decimal(n) + y && Stops(x) && Stops(y)
    ensures m == n && x == y
  {
    Associate(['-'], Decimal(m), x);
    Associate(['-'], Decimal(n), y);
    Cancel(['-'], Decimal(m) + x, ['-'], Decimal(n) + y);
    DecimalUnique(m, n, x, y);
  }

  lemma Sign(i: int)
    ensures |Integer(i)| > 0 && (Integer(i)[0] == '-' <==> i < 0)
    ensures Integer(i)[0] == '-' || Text.IsDigit(Integer(i)[0])
  {
    DecimalDigits(if i < 0 then -i else i);
  }

  lemma IntegerUnique(m: int, n: int, x: string, y: string)
    requires Integer(m) + x == Integer(n) + y && Stops(x) && Stops(y)
    ensures m == n && x == y
  {
    Sign(m);
    Sign(n);
    SameHead(Integer(m), x, Integer(n), y, 0);
    if m < 0 {
      NegativeUnique(-m, -n, x, y);
    } else {
      DecimalUnique(m, n, x, y);
    }
  }

  lemma HexInjective(c: nat, d: nat)
    requires c < 256 && d < 256 && Hex(c / 16) == Hex(d / 16) && Hex(c % 16) == Hex(d % 16)
    ensures c == d
  {
    assert c / 16 == d / 16 && c % 16 == d % 16;
  }

  lemma EscapedCharUnique(c: char, d: char, x: string, y: string)
    requires EscapedChar(c) + x == EscapedChar(d) + y
    ensures c == d && x == y
  {
    var e, f := EscapedChar(c), EscapedChar(d);
    SameHead(e, x, f, y, 0);
    if e[0] == '\\' {
      SameHead(e, x, f, y, 1);
      if e[1] == 'u' {
        SameHead(e, x, f, y, 4);
        SameHead(e, x, f, y, 5);
        HexInjective(c as int, d as int);
      }
    }
    Cancel(e, x, f, y);
  }

  lemma {:induction false} CharsUnique(s: string, t: string, x: string, y: string)
    requires CharsThen(s, x) == CharsThen(t, y)
    ensures s == t && x == y
  {
    if s == [] || t == [] {
      CharsHead(s, x);
      CharsHead(t, y);
      Cancel(['\"'], x, ['\"'], y);
    } else {
      EscapedCharUnique(s[0], t[0], CharsThen(s[1..], x), CharsThen(t[1..], y));
      CharsUnique(s[1..], t[1..], x, y);
    }
  }

  lemma CharsHead(s: string, x: string)
    ensures |CharsThen(s, x)| > 0 && (CharsThen(s, x)[0] == '\"' <==> s == [])
  {
    if s != [] { assert EscapedChar(s[0])[0] != '\"'; }
  }

  lemma StringUnique(s: string, t: string, x: string, y: string)
    requires StringThen(s, x) == StringThen(t, y)
    ensures s == t && x == y
  {
    Cancel(['\"'], CharsThen(s, x), ['\"'], CharsThen(t, y));
    CharsUnique(s, t, x, y);
  }

  /** The first character of a printed value tells its kind, for kinds in the order of the datatype. */
  function Kind(c: char): nat
  {
    if c == 'n' then 0 else if c == 't' || c == 'f' then 1 else if c == '-' || Text.IsDigit(c) then 2
    else if c == '\"' then 3 else if c == '[' then 5 else if c == '{' then 6 else 7
  }

  function KindOf(v: Value): nat
  {
    match v case Null => 0 case Bool(_) => 1 case Int(_) => 2 case Str(_) => 3
            case Refused => 4 case List(_) => 5 case Dict(_) => 6
  }

  lemma FirstChar(v: Value, k: string)
    requires Accepted(v)
    ensures |PrintThen(v, k)| > 0 && Kind(PrintThen(v, k)[0]) == KindOf(v)
  {
    if v.Int? {
      Sign(v.i);
      assert Integer(v.i)[0] == (Integer(v.i) + k)[0];
    }
  }

  lemma {:induction false} PrintUnique(a: Value, b: Value, x: string, y: string)
    requires Accepted(a) && Accepted(b) && Stops(x) && Stops(y)
    requires PrintThen(a, x) == PrintThen(b, y)
    ensures a == b && x == y
    decreases a, 1
  {
    FirstChar(a, x);
    FirstChar(b, y);
    match a
    case Null => Cancel("null", x, "null", y);
    case Bool(p) =>
      var s, t := if p then "true" else "false", if b.b then "true" else "false";
      SameHead(s, x, t, y, 0);
      Cancel(s, x, t, y);
    case Int(i) => IntegerUnique(i, b.i, x, y);
    case Str(s) => StringUnique(s, b.s, x, y);
    case List(xs) => ListUnique(xs, b.items, x, y);
    case Dict(es) => DictUnique(es, b.entries, x, y);
  }

  lemma {:induction false} ListUnique(xs: seq<Value>, ys: seq<Value>, x: string, y: string)
    requires Accepted(List(xs)) && Accepted(List(ys)) && Stops(x) && Stops(y)
    requires PrintThen(List(xs), x) == PrintThen(List(ys), y)
    ensures xs == ys && x == y
    decreases xs, 1
  {
    var s := if xs == [] then [']'] + x else PrintThen(xs[0], ItemsThen(xs[1..], x));
    var t := if ys == [] then [']'] + y else PrintThen(ys[0], ItemsThen(ys[1..], y));
    Cancel(['['], s, ['['], t);
    if xs != [] { assert xs[0] in xs; FirstChar(xs[0], ItemsThen(xs[1..], x)); }
    if ys != [] { assert ys[0] in ys; FirstChar(ys[0], ItemsThen(ys[1..], y)); }
    if xs == [] || ys == [] {
      assert Kind(']') == 7;
      Cancel([']'], x, [']'], y);
    } else {
      ItemsStop(xs[1..], x);
      ItemsStop(ys[1..], y);
      PrintUnique(xs[0], ys[0], ItemsThen(xs[1..], x), ItemsThen(ys[1..], y));
      ItemsUnique(xs[1..], ys[1..], x, y);
      assert xs == [xs[0]] + xs[1..] && ys == [ys[0]] + ys[1..];
    }
  }

  lemma ItemsStop(xs: seq<Value>, x: string)
    ensures |ItemsThen(xs, x)| > 0 && ItemsThen(xs, x)[0] == (if xs == [] then ']' else ',')
  {}

  lemma EntriesStop(es: seq<Entry>, x: string)
    ensures |EntriesThen(es, x)| > 0 && EntriesThen(es, x)[0] == (if es == [] then '}' else ',')
  {}

  lemma {:induction false} ItemsUnique(xs: seq<Value>, ys: seq<Value>, x: string, y: string)
    requires Accepted(List(xs)) && Accepted(List(ys)) && Stops(x) && Stops(y)
    requires ItemsThen(xs, x) == ItemsThen(ys, y)
    ensures xs == ys && x == y
    decreases xs, 0
  {
    ItemsStop(xs, x);
    ItemsStop(ys, y);
    if xs == [] {
      Cancel([']'], x, [']'], y);
    } else {
      Cancel([','], PrintThen(xs[0], ItemsThen(xs[1..], x)), [','], PrintThen(ys[0], ItemsThen(ys[1..], y)));
      ItemsStop(xs[1..], x);
      ItemsStop(ys[1..], y);
      PrintUnique(xs[0], ys[0], ItemsThen(xs[1..], x), ItemsThen(ys[1..], y));
      ItemsUnique(xs[1..], ys[1..], x, y);
      assert xs == [xs[0]] + xs[1..] && ys == [ys[0]] + ys[1..];
    }
  }

  lemma {:induction false} EntryUnique(d: Entry, e: Entry, x: string, y: string)
    requires Accepted(d.value) && Accepted(e.value) && Stops(x) && Stops(y)
    requires EntryThen(d, x) == EntryThen(e, y)
    ensures d == e && x == y
    decreases d, 1
  {
    StringUnique(d.key, e.key, [':'] + PrintThen(d.value, x), [':'] + PrintThen(e.value, y));
    Cancel([':'], PrintThen(d.value, x), [':'], PrintThen(e.value, y));
    PrintUnique(d.value, e.value, x, y);
  }

  lemma {:induction false} DictUnique(ds: seq<Entry>, es: seq<Entry>, x: string, y: string)
    requires Accepted(Dict(ds)) && Accepted(Dict(es)) && Stops(x) && Stops(y)
    requires PrintThen(Dict(ds), x) == PrintThen(Dict(es), y)
    ensures ds == es && x == y
    decreases ds, 1
  {
    var s := if ds == [] then ['}'] + x else EntryThen(ds[0], EntriesThen(ds[1..], x));
    var t := if es == [] then ['}'] + y else EntryThen(es[0], EntriesThen(es[1..], y));
    Cancel(['{'], s, ['{'], t);
    assert ds != [] ==> s[0] == '\"';
    assert es != [] ==> t[0] == '\"';
    if ds == [] || es == [] {
      Cancel(['}'], x, ['}'], y);
    } else {
      EntriesStop(ds[1..], x);
      EntriesStop(es[1..], y);
      EntryUnique(ds[0], es[0], EntriesThen(ds[1..], x), EntriesThen(es[1..], y));
      EntriesUnique(ds[1..], es[1..], x, y);
      assert ds == [ds[0]] + ds[1..] && es == [es[0]] + es[1..];
    }
  }

  lemma {:induction false} EntriesUnique(ds: seq<Entry>, es: seq<Entry>, x: string, y: string)
    requires Accepted(Dict(ds)) && Accepted(Dict(es)) && Stops(x) && Stops(y)
    requires EntriesThen(ds, x) == EntriesThen(es, y)
    ensures ds == es && x == y
    decreases ds, 0
  {
    EntriesStop(ds, x);
    EntriesStop(es, y);
    if ds == [] {
      Cancel(['}'], x, ['}'], y);
    } else {
      Cancel([','], EntryThen(ds[0], EntriesThen(ds[1..], x)), [','], EntryThen(es[0], EntriesThen(es[1..], y)));
      EntriesStop(ds[1..], x);
      EntriesStop(es[1..], y);
      EntryUnique(ds[0], es[0], EntriesThen(ds[1..], x), EntriesThen(es[1..], y));
      EntriesUnique(ds[1..], es[1..], x, y);
      assert ds == [ds[0]] + ds[1..] && es == [es[0]] + es[1..];
    }
  }

  lemma Utf8CharUnique(c: char, d: char, x: seq<Byte>, y: seq<Byte>)
    requires Utf8Char(c) + x == Utf8Char(d) + y
    ensures c == d && x == y
  {
    var e, f := Utf8Char(c), Utf8Char(d);
    SameHead(e, x, f, y, 0);
    Utf8Length(c, d);
    Cancel(e, x, f, y);
    Utf8CharInjective(c, d);
  }

  /** The lead byte tells how many bytes follow. */
  lemma Utf8Length(c: char, d: char)
    requires Utf8Char(c)[0] == Utf8Char(d)[0]
    ensures |Utf8Char(c)| == |Utf8Char(d)|
  {}

  lemma FromSextets(n: nat)
    ensures n == n / 64 * 64 + n % 64
    ensures n / 64 == n / 4096 * 64 + n / 64 % 64
    ensures n / 4096 == n / 262144 * 64 + n / 4096 % 64
  {}

  lemma Utf8CharInjective(c: char, d: char)
    requires Utf8Char(c) == Utf8Char(d)
    ensures c == d
  {
    var m, n := c as int, d as int;
    var e, f := Utf8Char(c), Utf8Char(d);
    assert e[0] == f[0] && e[|e|-1] == f[|f|-1];
    FromSextets(m);
    FromSextets(n);
    if |e| >= 3 { assert e[|e|-2] == f[|f|-2]; }
    if |e| == 4 { assert e[1] == f[1]; }
    assert m == n;
  }

  lemma {:induction false} Utf8Injective(s: string, t: string)
    requires Utf8(s) == Utf8(t)
    ensures s == t
  {
    if s != [] && t != [] {
      Utf8CharUnique(s[0], t[0], Utf8(s[1..]), Utf8(t[1..]));
      Utf8Injective(s[1..], t[1..]);
      assert s == [s[0]] + s[1..] && t == [t[0]] + t[1..];
    } else {
      Utf8Empty(s);
      Utf8Empty(t);
    }
  }

  lemma Utf8Empty(s: string)
    ensures Utf8(s) == [] <==> s == []
  {
    if s != [] { assert |Utf8(s)| >= |Utf8Char(s[0])|; }
  }

  // ---- sorting keys forgets exactly the order of entries ----

  lemma {:induction false} SortedAccepted(v: Value)
    requires Accepted(v)
    ensures Accepted(Sorted(v))
  {
    match v
    case List(items) => forall x | x in items ensures Accepted(Sorted(x)) { SortedAccepted(x); }
    case Dict(es) =>
      var fs := SortedEntries(es);
      SortKeepsMembers(EntryLess, fs);
      forall i | 0 <= i < |es| ensures Accepted(fs[i].value) { SortedAccepted(es[i].value); }
    case _ =>
  }

  lemma SortedEntriesStrict(es: seq<Entry>)
    requires WellFormed(Dict(es))
    ensures StrictlyAscending(EntryLess, Sort(EntryLess, SortedEntries(es)))
  {
    var fs := SortedEntries(es);
    DistinctSortsStrictly(fs);
  }

  lemma DistinctSortsStrictly(fs: seq<Entry>)
    requires forall i, j | 0 <= i < j < |fs| :: fs[i].key != fs[j].key
    ensures StrictlyAscending(EntryLess, Sort(EntryLess, fs))
  {
    var gs := Sort(EntryLess, fs);
    EntryOrder();
    SortAscends(EntryLess, fs);
    SortKeepsElements(EntryLess, fs);
    DistinctKeysSurvive(fs, gs);
    forall i, j | 0 <= i < j < |gs| ensures EntryLess(gs[i], gs[j]) { Text.LessTotal(gs[i].key, gs[j].key); }
  }

  /** Distinct keys leave no entry twice, so rearranging them keeps the keys distinct. */
  lemma DistinctKeysSurvive(fs: seq<Entry>, gs: seq<Entry>)
    requires forall i, j | 0 <= i < j < |fs| :: fs[i].key != fs[j].key
    requires multiset(fs) == multiset(gs)
    ensures forall i, j | 0 <= i < j < |gs| :: gs[i].key != gs[j].key
  {
    forall i, j | 0 <= i < j < |gs| ensures gs[i].key != gs[j].key {
      assert gs[i] in multiset(gs) && gs[j] in multiset(gs);
      assert gs[i] in fs && gs[j] in fs;
      var k :| 0 <= k < |fs| && fs[k] == gs[i];
      AtMostOnce(fs, k);
      assert gs == gs[..j] + [gs[j]] + gs[j+1..];
      assert gs[..j][i] == gs[i];
      assert multiset(gs)[gs[i]] == multiset(gs[..j])[gs[i]] + multiset([gs[j]])[gs[i]] + multiset(gs[j+1..])[gs[i]];
    }
  }

  lemma AtMostOnce(fs: seq<Entry>, k: nat)
    requires k < |fs| && forall i, j | 0 <= i < j < |fs| :: fs[i].key != fs[j].key
    ensures multiset(fs)[fs[k]] == 1
  {
    assert fs == fs[..k] + [fs[k]] + fs[k+1..];
    assert fs[k] !in fs[..k] && fs[k] !in fs[k+1..];
  }

  /** Equal sorted forms come only from values that differ in dict order. */
  lemma {:induction false} SortedEqualMeansSame(a: Value, b: Value)
    requires WellFormed(a) && WellFormed(b) && Sorted(a) == Sorted(b)
    ensures Same(a, b)
  {
    match a
    case List(xs) =>
      forall i | 0 <= i < |xs| ensures Same(xs[i], b.items[i]) {
        assert Sorted(xs[i]) == SortedItems(xs)[i] == SortedItems(b.items)[i];
        SortedEqualMeansSame(xs[i], b.items[i]);
      }
    case Dict(ds) =>
      var es := b.entries;
      var fs, gs := SortedEntries(ds), SortedEntries(es);
      SortKeepsElements(EntryLess, fs);
      SortKeepsElements(EntryLess, gs);
      SortKeepsMembers(EntryLess, fs);
      SortKeepsMembers(EntryLess, gs);
      forall i | 0 <= i < |ds| ensures EntryAmong(ds[i], es) {
        assert fs[i] in Sort(EntryLess, fs);
        var j :| 0 <= j < |gs| && gs[j] == fs[i];
        SortedEqualMeansSame(ds[i].value, es[j].value);
        assert SameEntry(ds[i], es[j]);
      }
    case _ =>
  }

  lemma {:induction false} SameMeansSortedEqual(a: Value, b: Value)
    requires WellFormed(a) && WellFormed(b) && Same(a, b)
    ensures Sorted(a) == Sorted(b)
  {
    match a
    case List(xs) =>
      forall i | 0 <= i < |xs| ensures SortedItems(xs)[i] == SortedItems(b.items)[i] {
        SameMeansSortedEqual(xs[i], b.items[i]);
      }
      assert SortedItems(xs) == SortedItems(b.items);
    case Dict(ds) => SameDictsSortEqual(ds, b.entries);
    case _ =>
  }

  lemma {:induction false} SameDictsSortEqual(ds: seq<Entry>, es: seq<Entry>)
    requires WellFormed(Dict(ds)) && WellFormed(Dict(es)) && Same(Dict(ds), Dict(es))
    ensures Sort(EntryLess, SortedEntries(ds)) == Sort(EntryLess, SortedEntries(es))
  {
    var fs, gs := SortedEntries(ds), SortedEntries(es);
    forall i | 0 <= i < |ds| ensures fs[i] in gs {
      assert EntryAmong(ds[i], es);
      var j :| 0 <= j < |es| && SameEntry(ds[i], es[j]);
      SameMeansSortedEqual(ds[i].value, es[j].value);
      assert gs[j] == fs[i];
    }
    SameMembers(fs, gs);
    SortedEntriesStrict(ds);
    SortedEntriesStrict(es);
    SameMembersSortEqual(fs, gs);
  }

  lemma SameMembersSortEqual(fs: seq<Entry>, gs: seq<Entry>)
    requires forall x :: x in fs <==> x in gs
    requires StrictlyAscending(EntryLess, Sort(EntryLess, fs)) && StrictlyAscending(EntryLess, Sort(EntryLess, gs))
    ensures Sort(EntryLess, fs) == Sort(EntryLess, gs)
  {
    SortKeepsMembers(EntryLess, fs);
    SortKeepsMembers(EntryLess, gs);
    EntryOrder();
    StrictOrderIsUnique(EntryLess, Sort(EntryLess, fs), Sort(EntryLess, gs));
  }

  /** Two duplicate-free lists of the same length, one inside the other, have the same members. */
  lemma SameMembers(fs: seq<Entry>, gs: seq<Entry>)
    requires |fs| == |gs| && forall x | x in fs :: x in gs
    requires forall i, j | 0 <= i < j < |fs| :: fs[i].key != fs[j].key
    requires forall i, j | 0 <= i < j < |gs| :: gs[i].key != gs[j].key
    ensures forall x :: x in fs <==> x in gs
  {
    var s, t := set x | x in fs, set x | x in gs;
    SetSize(fs);
    SetSize(gs);
    SubsetOfEqualSize(s, t);
    assert forall x :: x in fs <==> x in s;
    assert forall x :: x in gs <==> x in t;
  }

  lemma {:induction false} SetSize(fs: seq<Entry>)
    requires forall i, j | 0 <= i < j < |fs| :: fs[i].key != fs[j].key
    ensures |set x | x in fs| == |fs|
  {
    if fs != [] {
      SetSize(fs[1..]);
      var s := set x | x in fs;
      assert s == {fs[0]} + (set x | x in fs[1..]);
      assert fs[0] !in fs[1..];
    }
  }

  lemma SubsetOfEqualSize<T>(s: set<T>, t: set<T>)
    requires s <= t && |s| == |t|
    ensures s == t
  {
    assert t == s + (t - s);
    assert |t| == |s| + |t - s|;
  }

  /** The main law: canonical texts agree exactly when the values differ in nothing but dict order. */
  lemma CanonicalIdentity(a: Value, b: Value)
    requires WellFormed(a) && WellFormed(b) && Accepted(a) && Accepted(b)
    ensures Canonical(a) == Canonical(b) <==> Same(a, b)
  {
    if Canonical(a) == Canonical(b) {
      Utf8Injective(Print(Sorted(a)), Print(Sorted(b)));
      SortedAccepted(a);
      SortedAccepted(b);
      assert Print(Sorted(a)) + "" == Print(Sorted(b)) + "";
      PrintUnique(Sorted(a), Sorted(b), "", "");
      SortedEqualMeansSame(a, b);
    }
    if Same(a, b) { SameMeansSortedEqual(a, b); }
  }
}
