/** The canonical form a snapshot payload takes before it is serialised and hashed. */
module Canonical {
  import opened Common
  import opened Rounding

  /** A mapping key: a string, or any other hashable with the text `str` gives it. */
  datatype Key = StringKey(text: string) | OtherKey(text: string)

  /** The value of a float, or of a Decimal converted to one. */
  datatype Number = Finite(value: real) | NonFinite

  datatype Value =
    | Null
    | Bool(b: bool)
    | Int(n: int)
    | Str(s: string)
    | Opaque(id: nat)   // dates and other objects, passed through
    | Float(x: Number)
    | Decimal(x: Number)
    | List(items: seq<Value>)
    | Tuple(items: seq<Value>)
    | Dict(entries: seq<Entry>)   // in insertion order

  datatype Entry = Entry(key: Key, value: Value)

  /** The canonical form; None stands for the ValidationError raised on NaN or infinity. */
  function Normalize(v: Value): Option<Value>
    decreases v
  {
    match v
    case Dict(entries) =>
      (match NormalizeEntries(entries)
       case None => None
       case Some(pairs) => Some(Dict(InKeyOrder(pairs))))
    case List(items) => AsList(NormalizeAll(items))
    case Tuple(items) => AsList(NormalizeAll(items))
    case Float(x) => Rounded(x)
    case Decimal(x) => Rounded(x)
    case _ => Some(v)
  }

  function Rounded(x: Number): Option<Value> {
    if x.NonFinite? then None else Some(Float(Finite(Round(x.value, SCALE_6))))
  }

  function AsList(items: Option<seq<Value>>): Option<Value> {
    if items.None? then None else Some(List(items.value))
  }

  function NormalizeAll(items: seq<Value>): Option<seq<Value>>
    decreases items
  {
    if items == [] then Some([])
    else
      var first, rest := Normalize(items[0]), NormalizeAll(items[1..]);
      if first.None? || rest.None? then None else Some([first.value] + rest.value)
  }

  /** Values in canonical form, each under the text of its key. */
  function NormalizeEntries(entries: seq<Entry>): Option<seq<Entry>>
    decreases entries
  {
    if entries == [] then Some([])
    else
      var first, rest := NormalizeEntry(entries[0]), NormalizeEntries(entries[1..]);
      if first.None? || rest.None? then None else Some([first.value] + rest.value)
  }

  function NormalizeEntry(e: Entry): Option<Entry>
    decreases e
  {
    var value := Normalize(e.value);
    if value.None? then None else Some(Entry(StringKey(e.key.text), value.value))
  }

  /** The dict built from pairs sorted stably by key text: a later pair replaces an earlier one of the same text. */
  function InKeyOrder(pairs: seq<Entry>): seq<Entry> {
    if pairs == [] then [] else Insert(pairs[0], InKeyOrder(pairs[1..]))
  }

  function Insert(p: Entry, sorted: seq<Entry>): seq<Entry> {
    if sorted == [] || Before(p.key.text, sorted[0].key.text) then [p] + sorted
    else if p.key.text == sorted[0].key.text then sorted
    else [sorted[0]] + Insert(p, sorted[1..])
  }

  // ---------------------------------------------------------------- the order of the built dict

  ghost predicate Ascending(pairs: seq<Entry>) {
    forall i, j | 0 <= i < j < |pairs| :: Before(pairs[i].key.text, pairs[j].key.text)
  }

  /** The value a key text is bound to: that of the last pair with the text. */
  function Lookup(pairs: seq<Entry>, t: string): Option<Entry> {
    if pairs == [] then None
    else
      var rest := Lookup(pairs[1..], t);
      if rest.Some? then rest else if pairs[0].key.text == t then Some(pairs[0]) else None
  }

  lemma {:induction false} LookupIsMember(pairs: seq<Entry>, t: string) returns (k: nat)
    ensures Lookup(pairs, t).Some? ==> k < |pairs| && pairs[k] == Lookup(pairs, t).value && pairs[k].key.text == t
    ensures Lookup(pairs, t).None? ==> (forall i | 0 <= i < |pairs| :: pairs[i].key.text != t)
  {
    k := 0;
    if pairs != [] {
      k := LookupIsMember(pairs[1..], t);
      if Lookup(pairs[1..], t).Some? {
        k := k + 1;
      } else {
        k := 0;
        forall i | 0 <= i < |pairs| && pairs[0].key.text != t ensures pairs[i].key.text != t {
          if i > 0 { assert pairs[i] == pairs[1..][i - 1]; }
        }
      }
    }
  }

  /** In a list without repeated texts every pair is the one its text is bound to. */
  lemma LookupFinds(pairs: seq<Entry>, i: nat)
    requires i < |pairs| && (forall j | 0 <= j < |pairs| && pairs[j].key.text == pairs[i].key.text :: j == i)
    ensures Lookup(pairs, pairs[i].key.text) == Some(pairs[i])
  {
    var k := LookupIsMember(pairs, pairs[i].key.text);
  }

  lemma AscendingTextsDiffer(pairs: seq<Entry>, i: nat, j: nat)
    requires Ascending(pairs) && i < |pairs| && j < |pairs| && pairs[i].key.text == pairs[j].key.text
    ensures i == j
  {
    BeforeIsStrict(pairs[i].key.text);
  }

  lemma AscendingPrepend(p: Entry, sorted: seq<Entry>)
    requires Ascending(sorted) && (sorted == [] || Before(p.key.text, sorted[0].key.text))
    ensures Ascending([p] + sorted)
  {
    forall i | 0 <= i < |sorted| ensures Before(p.key.text, sorted[i].key.text) {
      if i > 0 { BeforeTransitive(p.key.text, sorted[0].key.text, sorted[i].key.text); }
    }
  }

  lemma {:induction false} InsertKeepsOrder(p: Entry, sorted: seq<Entry>)
    requires Ascending(sorted)
    ensures Ascending(Insert(p, sorted))
    ensures Insert(p, sorted) != []
    ensures (sorted == [] || Before(p.key.text, sorted[0].key.text) || Insert(p, sorted)[0] == sorted[0])
  {
    if sorted == [] || Before(p.key.text, sorted[0].key.text) {
      AscendingPrepend(p, sorted);
    } else if p.key.text != sorted[0].key.text {
      InsertKeepsOrder(p, sorted[1..]);
      BeforeTotal(p.key.text, sorted[0].key.text);
      assert |sorted| > 1 ==> Before(sorted[0].key.text, sorted[1].key.text);
      AscendingPrepend(sorted[0], Insert(p, sorted[1..]));
    }
  }

  lemma {:induction false} InsertLookup(p: Entry, sorted: seq<Entry>, t: string)
    requires Ascending(sorted)
    ensures Lookup(Insert(p, sorted), t) == Lookup([p] + sorted, t)
  {
    assert ([p] + sorted)[1..] == sorted;
    if sorted != [] && !Before(p.key.text, sorted[0].key.text) {
      if p.key.text == sorted[0].key.text {
        FirstIsFound(sorted);
      } else {
        InsertLookup(p, sorted[1..], t);
        assert ([p] + sorted[1..])[1..] == sorted[1..];
        assert ([sorted[0]] + Insert(p, sorted[1..]))[1..] == Insert(p, sorted[1..]);
      }
    }
  }

  lemma FirstIsFound(sorted: seq<Entry>)
    requires Ascending(sorted) && sorted != []
    ensures Lookup(sorted, sorted[0].key.text) == Some(sorted[0])
  {
    forall j | 0 <= j < |sorted| && sorted[j].key.text == sorted[0].key.text
      ensures j == 0
    {
      AscendingTextsDiffer(sorted, j, 0);
    }
    LookupFinds(sorted, 0);
  }

  /** The built dict is in strictly ascending key order and binds every text as the pairs do. */
  lemma {:induction false} KeyOrderSound(pairs: seq<Entry>)
    ensures Ascending(InKeyOrder(pairs))
    ensures forall t :: Lookup(InKeyOrder(pairs), t) == Lookup(pairs, t)
  {
    if pairs != [] {
      KeyOrderSound(pairs[1..]);
      InsertKeepsOrder(pairs[0], InKeyOrder(pairs[1..]));
      forall t ensures Lookup(InKeyOrder(pairs), t) == Lookup(pairs, t) {
        InsertLookup(pairs[0], InKeyOrder(pairs[1..]), t);
        assert ([pairs[0]] + InKeyOrder(pairs[1..]))[1..] == InKeyOrder(pairs[1..]);
      }
    }
  }

  /** A strictly ascending list is determined by what it binds. */
  lemma {:induction false} AscendingUnique(a: seq<Entry>, b: seq<Entry>)
    requires Ascending(a) && Ascending(b) && (forall t :: Lookup(a, t) == Lookup(b, t))
    ensures a == b
  {
    if a == [] && b == [] {
    } else if a == [] {
      FirstIsFound(b);
    } else if b == [] {
      FirstIsFound(a);
    } else {
      FirstIsLeast(a, b);
      FirstIsLeast(b, a);
      UnorderedTextsAreEqual(a[0].key.text, b[0].key.text);
      FirstIsFound(a);
      FirstIsFound(b);
      forall t ensures Lookup(a[1..], t) == Lookup(b[1..], t) {
        TailLookup(a, t);
        TailLookup(b, t);
      }
      AscendingUnique(a[1..], b[1..]);
      assert a == [a[0]] + a[1..] && b == [b[0]] + b[1..];
    }
  }

  lemma UnorderedTextsAreEqual(s: string, t: string)
    requires !Before(s, t) && !Before(t, s)
    ensures s == t
  {
    BeforeTotal(s, t);
  }

  /** The first text of a is not before the first of b when a binds nothing that b does not. */
  lemma FirstIsLeast(a: seq<Entry>, b: seq<Entry>)
    requires Ascending(a) && Ascending(b) && a != [] && b != [] && Lookup(b, a[0].key.text) == Lookup(a, a[0].key.text)
    ensures !Before(a[0].key.text, b[0].key.text)
  {
    FirstIsFound(a);
    var k := LookupIsMember(b, a[0].key.text);
    if Before(a[0].key.text, b[0].key.text) {
      if k > 0 { BeforeTransitive(a[0].key.text, b[0].key.text, b[k].key.text); }
      BeforeIsStrict(a[0].key.text);
    }
  }

  lemma TailLookup(a: seq<Entry>, t: string)
    requires Ascending(a) && a != []
    ensures Lookup(a[1..], t) == if t == a[0].key.text then None else Lookup(a, t)
  {
    if t == a[0].key.text {
      var k := LookupIsMember(a[1..], t);
      if Lookup(a[1..], t).Some? { AscendingTextsDiffer(a, k + 1, 0); }
    }
  }

  // ---------------------------------------------------------------- when canonicalisation fails

  predicate IsNonFinite(v: Value) {
    (v.Float? || v.Decimal?) && v.x.NonFinite?
  }

  function Children(v: Value): seq<Value> {
    match v
    case List(items) => items
    case Tuple(items) => items
    case Dict(entries) => ValuesOf(entries)
    case _ => []
  }

  function ValuesOf(entries: seq<Entry>): (values: seq<Value>)
    ensures |values| == |entries| && (forall i | 0 <= i < |entries| :: values[i] == entries[i].value)
  {
    if entries == [] then [] else [entries[0].value] + ValuesOf(entries[1..])
  }

  /** The value at the end of a path of child positions. */
  function At(v: Value, path: seq<nat>): Option<Value>
    decreases path
  {
    if path == [] then Some(v)
    else if path[0] >= |Children(v)| then None
    else At(Children(v)[path[0]], path[1..])
  }

  ghost predicate NonFiniteReachable(v: Value) {
    exists path :: At(v, path).Some? && IsNonFinite(At(v, path).value)
  }

  lemma ReachesThroughChild(v: Value)
    ensures NonFiniteReachable(v)
       <==> (IsNonFinite(v) || (exists i :: 0 <= i < |Children(v)| && NonFiniteReachable(Children(v)[i])))
  {
    if NonFiniteReachable(v) && !IsNonFinite(v) {
      var path :| At(v, path).Some? && IsNonFinite(At(v, path).value);
      assert At(Children(v)[path[0]], path[1..]) == At(v, path);
      assert NonFiniteReachable(Children(v)[path[0]]);
    }
    if IsNonFinite(v) { assert At(v, []) == Some(v); }
    if i :| 0 <= i < |Children(v)| && NonFiniteReachable(Children(v)[i]) {
      var path :| At(Children(v)[i], path).Some? && IsNonFinite(At(Children(v)[i], path).value);
      assert ([i] + path)[1..] == path;
      assert At(v, [i] + path) == At(Children(v)[i], path);
    }
  }

  lemma {:induction false} AllPointwise(items: seq<Value>)
    ensures NormalizeAll(items).None? <==> (exists i :: 0 <= i < |items| && Normalize(items[i]).None?)
    ensures var r := NormalizeAll(items);
            r.Some? ==> |r.value| == |items| && (forall i | 0 <= i < |items| :: Normalize(items[i]) == Some(r.value[i]))
    decreases |items|
  {
    if items != [] {
      AllPointwise(items[1..]);
      if i :| 0 <= i < |items| && Normalize(items[i]).None? {
        if i > 0 { assert items[1..][i - 1] == items[i]; }
      }
    }
  }

  lemma {:induction false} EntriesPointwise(entries: seq<Entry>)
    ensures NormalizeEntries(entries).None? <==> (exists i :: 0 <= i < |entries| && Normalize(entries[i].value).None?)
    ensures var r := NormalizeEntries(entries);
            r.Some? ==> |r.value| == |entries| && (forall i | 0 <= i < |entries| ::
              r.value[i].key == StringKey(entries[i].key.text) && Normalize(entries[i].value) == Some(r.value[i].value))
    decreases |entries|
  {
    if entries != [] {
      EntriesPointwise(entries[1..]);
      if i :| 0 <= i < |entries| && Normalize(entries[i].value).None? {
        if i > 0 { assert entries[1..][i - 1] == entries[i]; }
      }
    }
  }

  lemma FailsThroughChild(v: Value)
    ensures Normalize(v).None?
       <==> (IsNonFinite(v) || (exists i :: 0 <= i < |Children(v)| && Normalize(Children(v)[i]).None?))
  {
    var vs := Children(v);
    if v.List? || v.Tuple? {
      AllPointwise(v.items);
      assert vs == v.items;
    } else if v.Dict? {
      EntriesPointwise(v.entries);
      assert forall i | 0 <= i < |vs| :: vs[i] == v.entries[i].value;
    }
  }

  /** Canonicalisation raises exactly when a NaN or infinite float or Decimal is reachable as a value. */
  lemma {:induction false} FailsIffNonFiniteReachable(v: Value)
    ensures Normalize(v).None? <==> NonFiniteReachable(v)
    decreases v
  {
    FailsThroughChild(v);
    ReachesThroughChild(v);
    match v
    case List(items) =>
      forall i | 0 <= i < |items|
        ensures Normalize(items[i]).None? <==> NonFiniteReachable(items[i])
      {
        FailsIffNonFiniteReachable(items[i]);
      }
    case Tuple(items) =>
      forall i | 0 <= i < |items|
        ensures Normalize(items[i]).None? <==> NonFiniteReachable(items[i])
      {
        FailsIffNonFiniteReachable(items[i]);
      }
    case Dict(entries) =>
      forall i | 0 <= i < |entries|
        ensures Normalize(entries[i].value).None? <==> NonFiniteReachable(entries[i].value)
      {
        FailsIffForEntry(entries[i]);
      }
    case _ =>
  }

  lemma {:induction false} FailsIffForEntry(e: Entry)
    ensures Normalize(e.value).None? <==> NonFiniteReachable(e.value)
    decreases e
  {
    FailsIffNonFiniteReachable(e.value);
  }

  // ---------------------------------------------------------------- what the canonical form identifies

  /** The payloads json produces: every key of every mapping is a string, and no key repeats. */
  ghost predicate StringKeyed(v: Value)
    decreases v
  {
    match v
    case List(items) => forall i | 0 <= i < |items| :: StringKeyed(items[i])
    case Tuple(items) => forall i | 0 <= i < |items| :: StringKeyed(items[i])
    case Dict(entries) =>
      && (forall i | 0 <= i < |entries| :: StringKeyedEntry(entries[i]))
      && (forall i, j | 0 <= i < |entries| && 0 <= j < |entries| && entries[i].key == entries[j].key :: i == j)
    case _ => true
  }

  ghost predicate StringKeyedEntry(e: Entry)
    decreases e
  {
    e.key.StringKey? && StringKeyed(e.value)
  }

  /**
   * Equal up to the order of keys at any depth, list against tuple, float against Decimal, and digits beyond the sixth.
   */
  ghost predicate Equivalent(a: Value, b: Value)
    decreases a
  {
    match a
    case List(items) => EquivalentItems(items, b)
    case Tuple(items) => EquivalentItems(items, b)
    case Dict(entries) =>
      && b.Dict?
      && TextsWithin(entries, b.entries) && TextsWithin(b.entries, entries)
      && (forall i, j | 0 <= i < |entries| && 0 <= j < |b.entries| && entries[i].key.text == b.entries[j].key.text ::
            EquivalentEntry(entries[i], b.entries[j]))
    case Float(x) => SameNumber(x, b)
    case Decimal(x) => SameNumber(x, b)
    case _ => a == b
  }

  ghost predicate EquivalentItems(items: seq<Value>, b: Value)
    decreases items
  {
    (b.List? || b.Tuple?) && |b.items| == |items| && (forall i | 0 <= i < |items| :: Equivalent(items[i], b.items[i]))
  }

  ghost predicate EquivalentEntry(e: Entry, f: Entry)
    decreases e
  {
    Equivalent(e.value, f.value)
  }

  ghost predicate SameNumber(x: Number, b: Value) {
    && (b.Float? || b.Decimal?) && x.NonFinite? == b.x.NonFinite?
    && (x.Finite? ==> Round(x.value, SCALE_6) == Round(b.x.value, SCALE_6))
  }

  ghost predicate HasText(entries: seq<Entry>, t: string) {
    exists i :: 0 <= i < |entries| && entries[i].key.text == t
  }

  ghost predicate TextsWithin(es: seq<Entry>, fs: seq<Entry>) {
    forall i | 0 <= i < |es| :: HasText(fs, es[i].key.text)
  }

  /** Equal canonical entries mean the same texts bound to entries with the same canonical value. */
  ghost predicate SameBindings(es: seq<Entry>, fs: seq<Entry>) {
    && TextsWithin(es, fs) && TextsWithin(fs, es)
    && (forall i, j | 0 <= i < |es| && 0 <= j < |fs| && es[i].key.text == fs[j].key.text :: es[i] == fs[j])
  }

  ghost predicate TextsDiffer(es: seq<Entry>) {
    forall i, j | 0 <= i < |es| && 0 <= j < |es| && es[i].key.text == es[j].key.text :: i == j
  }

  lemma BindingsDecideLookup(es: seq<Entry>, fs: seq<Entry>, t: string)
    requires SameBindings(es, fs)
    ensures Lookup(es, t) == Lookup(fs, t)
  {
    var i := LookupIsMember(es, t);
    var j := LookupIsMember(fs, t);
  }

  lemma LookupDecidesBindings(es: seq<Entry>, fs: seq<Entry>)
    requires TextsDiffer(es) && TextsDiffer(fs) && (forall t :: Lookup(es, t) == Lookup(fs, t))
    ensures SameBindings(es, fs)
  {
    forall i | 0 <= i < |es| ensures HasText(fs, es[i].key.text) && Lookup(fs, es[i].key.text) == Some(es[i]) {
      LookupFinds(es, i);
      var k := LookupIsMember(fs, es[i].key.text);
    }
    forall j | 0 <= j < |fs| ensures HasText(es, fs[j].key.text) && Lookup(fs, fs[j].key.text) == Some(fs[j]) {
      LookupFinds(fs, j);
      var k := LookupIsMember(es, fs[j].key.text);
    }
  }

  lemma SortedEqualIffBindings(es: seq<Entry>, fs: seq<Entry>)
    requires TextsDiffer(es) && TextsDiffer(fs)
    ensures InKeyOrder(es) == InKeyOrder(fs) <==> SameBindings(es, fs)
  {
    KeyOrderSound(es);
    KeyOrderSound(fs);
    if InKeyOrder(es) == InKeyOrder(fs) {
      forall t ensures Lookup(es, t) == Lookup(fs, t) {
        assert Lookup(InKeyOrder(es), t) == Lookup(es, t) && Lookup(InKeyOrder(fs), t) == Lookup(fs, t);
      }
      LookupDecidesBindings(es, fs);
    }
    if SameBindings(es, fs) {
      forall t ensures Lookup(InKeyOrder(es), t) == Lookup(InKeyOrder(fs), t) { BindingsDecideLookup(es, fs, t); }
      AscendingUnique(InKeyOrder(es), InKeyOrder(fs));
    }
  }

  /**
   * Two string-keyed payloads, the first of which can be canonicalised, take the same canonical form exactly when they
   * are equal up to key order at any depth, list against tuple, and rounding to six digits.
   */
  lemma {:induction false} SameFormIffEquivalent(a: Value, b: Value)
    requires StringKeyed(a) && StringKeyed(b) && Normalize(a).Some?
    ensures Normalize(a) == Normalize(b) <==> Equivalent(a, b)
    decreases a
  {
    match a
    case List(items) => SameFormOfItems(items, b);
    case Tuple(items) => SameFormOfItems(items, b);
    case Dict(entries) => if b.Dict? { SameFormOfDicts(entries, b.entries); } else { FormKind(b); }
    case _ => FormKind(b);
  }

  lemma FormKind(b: Value)
    ensures Normalize(b).Some? ==>
      var n := Normalize(b).value;
      && (n.List? <==> b.List? || b.Tuple?) && (n.Dict? <==> b.Dict?) && (n.Float? <==> b.Float? || b.Decimal?)
      && (n.List? || n.Dict? || n.Float? || n == b)
  {
  }

  lemma {:induction false} SameFormOfItems(items: seq<Value>, b: Value)
    requires forall i | 0 <= i < |items| :: StringKeyed(items[i])
    requires StringKeyed(b) && NormalizeAll(items).Some?
    ensures AsList(NormalizeAll(items)) == Normalize(b) <==> EquivalentItems(items, b)
    decreases items
  {
    FormKind(b);
    if b.List? || b.Tuple? {
      forall i | 0 <= i < |items| && |items| == |b.items|
        ensures Normalize(items[i]) == Normalize(b.items[i]) <==> Equivalent(items[i], b.items[i])
      {
        AllPointwise(items);
        SameFormIffEquivalent(items[i], b.items[i]);
      }
      AllEqualIffPointwise(items, b.items);
    }
  }

  lemma AllEqualIffPointwise(xs: seq<Value>, ys: seq<Value>)
    requires NormalizeAll(xs).Some?
    ensures NormalizeAll(xs) == NormalizeAll(ys)
       <==> |xs| == |ys| && (forall i | 0 <= i < |xs| :: Normalize(xs[i]) == Normalize(ys[i]))
  {
    AllPointwise(xs);
    AllPointwise(ys);
    if |xs| == |ys| && (forall i | 0 <= i < |xs| :: Normalize(xs[i]) == Normalize(ys[i])) {
      assert NormalizeAll(ys).Some?;
      assert NormalizeAll(xs).value == NormalizeAll(ys).value;
    }
  }

  lemma {:induction false} SameFormOfEntry(e: Entry, f: Entry)
    requires StringKeyedEntry(e) && StringKeyedEntry(f) && Normalize(e.value).Some?
    ensures Normalize(e.value) == Normalize(f.value) <==> EquivalentEntry(e, f)
    decreases e
  {
    SameFormIffEquivalent(e.value, f.value);
  }

  lemma {:induction false} SameFormOfDicts(es: seq<Entry>, fs: seq<Entry>)
    requires StringKeyed(Dict(es)) && StringKeyed(Dict(fs)) && NormalizeEntries(es).Some?
    ensures Normalize(Dict(es)) == Normalize(Dict(fs)) <==> Equivalent(Dict(es), Dict(fs))
    decreases es
  {
    forall i, j | 0 <= i < |es| && 0 <= j < |fs|
      ensures Normalize(es[i].value) == Normalize(fs[j].value) <==> EquivalentEntry(es[i], fs[j])
    {
      EntriesPointwise(es);
      SameFormOfEntry(es[i], fs[j]);
    }
    BindingsIffEquivalent(es, fs);
    if NormalizeEntries(fs).Some? {
      EntriesKeepTexts(es);
      EntriesKeepTexts(fs);
      SortedEqualIffBindings(NormalizeEntries(es).value, NormalizeEntries(fs).value);
    }
  }

  lemma EntriesKeepTexts(es: seq<Entry>)
    requires StringKeyed(Dict(es)) && NormalizeEntries(es).Some?
    ensures TextsDiffer(NormalizeEntries(es).value)
  {
    EntriesPointwise(es);
    var ns := NormalizeEntries(es).value;
    forall i, j | 0 <= i < |ns| && 0 <= j < |ns| && ns[i].key.text == ns[j].key.text ensures i == j {
      assert StringKeyedEntry(es[i]) && StringKeyedEntry(es[j]);
      assert es[i].key == es[j].key;
    }
  }

  /** Entry by entry, being equivalent is having the same canonical value. */
  ghost predicate EquivalenceIsForm(es: seq<Entry>, fs: seq<Entry>) {
    forall i, j | 0 <= i < |es| && 0 <= j < |fs| ::
      Normalize(es[i].value) == Normalize(fs[j].value) <==> EquivalentEntry(es[i], fs[j])
  }

  lemma BindingsIffEquivalent(es: seq<Entry>, fs: seq<Entry>)
    requires NormalizeEntries(es).Some?
    requires EquivalenceIsForm(es, fs)
    ensures Equivalent(Dict(es), Dict(fs))
        <==> NormalizeEntries(fs).Some? && SameBindings(NormalizeEntries(es).value, NormalizeEntries(fs).value)
  {
    if Equivalent(Dict(es), Dict(fs)) {
      EquivalentNormalizes(es, fs);
      EntriesAlign(es);
      EntriesAlign(fs);
      EquivalentIsSameBindings(es, fs, NormalizeEntries(es).value, NormalizeEntries(fs).value);
    } else if NormalizeEntries(fs).Some? {
      EntriesAlign(es);
      EntriesAlign(fs);
      EquivalentIsSameBindings(es, fs, NormalizeEntries(es).value, NormalizeEntries(fs).value);
    }
  }

  lemma EquivalentNormalizes(es: seq<Entry>, fs: seq<Entry>)
    requires NormalizeEntries(es).Some? && Equivalent(Dict(es), Dict(fs))
    requires EquivalenceIsForm(es, fs)
    ensures NormalizeEntries(fs).Some?
  {
    EntriesPointwise(es);
    EntriesPointwise(fs);
    forall j | 0 <= j < |fs| ensures Normalize(fs[j].value).Some? {
      assert HasText(es, fs[j].key.text);
      var i :| 0 <= i < |es| && es[i].key.text == fs[j].key.text;
      assert EquivalentEntry(es[i], fs[j]);
    }
  }

  /** ns lists the canonical values of es, entry by entry. */
  ghost predicate Aligned(es: seq<Entry>, ns: seq<Entry>) {
    && |ns| == |es|
    && (forall i | 0 <= i < |es| ::
          ns[i].key == StringKey(es[i].key.text) && Normalize(es[i].value) == Some(ns[i].value))
  }

  lemma EntriesAlign(es: seq<Entry>)
    requires NormalizeEntries(es).Some?
    ensures Aligned(es, NormalizeEntries(es).value)
  {
    EntriesPointwise(es);
  }

  lemma EquivalentIsSameBindings(es: seq<Entry>, fs: seq<Entry>, ms: seq<Entry>, ns: seq<Entry>)
    requires Aligned(es, ms) && Aligned(fs, ns)
    requires EquivalenceIsForm(es, fs)
    ensures Equivalent(Dict(es), Dict(fs)) <==> SameBindings(ms, ns)
  {
    SameTexts(es, fs, ms, ns);
    SameTexts(fs, es, ns, ms);
    assert forall i, j | 0 <= i < |es| && 0 <= j < |fs| && es[i].key.text == fs[j].key.text ::
        ms[i] == ns[j] <==> EquivalentEntry(es[i], fs[j]);
  }

  lemma SameTexts(es: seq<Entry>, fs: seq<Entry>, ms: seq<Entry>, ns: seq<Entry>)
    requires |es| == |ms| && (forall i | 0 <= i < |es| :: ms[i].key.text == es[i].key.text)
    requires |fs| == |ns| && (forall i | 0 <= i < |fs| :: ns[i].key.text == fs[i].key.text)
    ensures TextsWithin(es, fs) <==> TextsWithin(ms, ns)
  {
    forall i | 0 <= i < |es| ensures HasText(fs, es[i].key.text) <==> HasText(ns, ms[i].key.text) {
      SameText(fs, ns, es[i].key.text);
    }
  }

  lemma SameText(es: seq<Entry>, ns: seq<Entry>, t: string)
    requires |es| == |ns| && (forall i | 0 <= i < |es| :: ns[i].key.text == es[i].key.text)
    ensures HasText(es, t) <==> HasText(ns, t)
  {
    if i :| 0 <= i < |es| && es[i].key.text == t { assert ns[i].key.text == t; }
    if i :| 0 <= i < |ns| && ns[i].key.text == t { assert es[i].key.text == t; }
  }

  /** Two mappings of the same string-keyed entries, inserted in whatever orders, take the same canonical form. */
  lemma ReorderingKeysKeepsForm(es: seq<Entry>, fs: seq<Entry>)
    requires StringKeyed(Dict(es)) && StringKeyed(Dict(fs)) && NormalizeEntries(es).Some?
    requires forall e :: e in es <==> e in fs
    ensures Normalize(Dict(es)) == Normalize(Dict(fs))
  {
    SameMembersSameTexts(es, fs);
    SameMembersSameTexts(fs, es);
    forall i, j | 0 <= i < |es| && 0 <= j < |fs| && es[i].key.text == fs[j].key.text
      ensures EquivalentEntry(es[i], fs[j])
    {
      EntryOfText(es, i, fs[j]);
      EntriesPointwise(es);
      SameFormOfEntry(es[i], es[i]);
    }
    SameFormIffEquivalent(Dict(es), Dict(fs));
  }

  lemma SameMembersSameTexts(es: seq<Entry>, fs: seq<Entry>)
    requires forall e :: e in es ==> e in fs
    ensures TextsWithin(es, fs)
  {
    forall i | 0 <= i < |es| ensures HasText(fs, es[i].key.text) { assert es[i] in fs; }
  }

  lemma EntryOfText(es: seq<Entry>, i: nat, e: Entry)
    requires StringKeyed(Dict(es)) && i < |es| && e in es && e.key.text == es[i].key.text
    ensures e == es[i] && StringKeyedEntry(e)
  {
    var k :| 0 <= k < |es| && es[k] == e;
    assert StringKeyedEntry(es[k]) && StringKeyedEntry(es[i]);
    assert es[k].key == es[i].key;
  }

  // ---------------------------------------------------------------- idempotence and its limits

  lemma {:induction false} InKeyOrderFixesAscending(pairs: seq<Entry>)
    requires Ascending(pairs)
    ensures InKeyOrder(pairs) == pairs
  {
    if |pairs| > 0 {
      InKeyOrderFixesAscending(pairs[1..]);
      assert |pairs| > 1 ==> Before(pairs[0].key.text, pairs[1].key.text);
      assert pairs == [pairs[0]] + pairs[1..];
    }
  }

  /** v is its own canonical form. */
  ghost predicate Canonical(v: Value) {
    Normalize(v) == Some(v)
  }

  lemma {:induction false} AllCanonical(items: seq<Value>)
    requires forall i | 0 <= i < |items| :: Canonical(items[i])
    ensures NormalizeAll(items) == Some(items)
  {
    AllPointwise(items);
    var r := NormalizeAll(items);
    assert r.Some? && (forall i | 0 <= i < |items| :: r.value[i] == items[i]);
    assert r.value == items;
  }

  lemma EntriesCanonical(entries: seq<Entry>)
    requires Ascending(entries)
    requires (forall i | 0 <= i < |entries| :: entries[i].key.StringKey? && Canonical(entries[i].value))
    ensures Canonical(Dict(entries))
  {
    EntriesPointwise(entries);
    var r := NormalizeEntries(entries);
    assert r.Some? && (forall i | 0 <= i < |entries| :: r.value[i] == entries[i]);
    assert r.value == entries;
    InKeyOrderFixesAscending(entries);
  }

  /** Every entry of the built dict is one of the pairs. */
  lemma {:induction false} InKeyOrderMember(pairs: seq<Entry>, k: nat) returns (i: nat)
    requires k < |InKeyOrder(pairs)|
    ensures i < |pairs| && InKeyOrder(pairs)[k] == pairs[i]
  {
    KeyOrderSound(pairs);
    var sorted := InKeyOrder(pairs);
    forall j | 0 <= j < |sorted| && sorted[j].key.text == sorted[k].key.text
      ensures j == k
    {
      AscendingTextsDiffer(sorted, j, k);
    }
    LookupFinds(sorted, k);
    i := LookupIsMember(pairs, sorted[k].key.text);
  }

  /** Canonicalising a canonical form changes nothing. */
  lemma {:induction false} NormalizeIdempotent(v: Value)
    requires Normalize(v).Some?
    ensures Normalize(Normalize(v).value) == Normalize(v)
    decreases v
  {
    match v
    case List(items) => ItemsIdempotent(items);
    case Tuple(items) => ItemsIdempotent(items);
    case Dict(entries) => EntriesIdempotent(entries);
    case Float(x) => RoundIdempotent(x.value, SCALE_6);
    case Decimal(x) => RoundIdempotent(x.value, SCALE_6);
    case _ =>
  }

  lemma {:induction false} ItemsIdempotent(items: seq<Value>)
    requires NormalizeAll(items).Some?
    ensures Canonical(List(NormalizeAll(items).value))
    decreases items
  {
    AllPointwise(items);
    var ns := NormalizeAll(items).value;
    forall i | 0 <= i < |ns| ensures Canonical(ns[i]) { NormalizeIdempotent(items[i]); }
    AllCanonical(ns);
  }

  lemma {:induction false} EntryIdempotent(e: Entry)
    requires Normalize(e.value).Some?
    ensures Canonical(Normalize(e.value).value)
    decreases e
  {
    NormalizeIdempotent(e.value);
  }

  lemma {:induction false} EntriesIdempotent(entries: seq<Entry>)
    requires NormalizeEntries(entries).Some?
    ensures Canonical(Dict(InKeyOrder(NormalizeEntries(entries).value)))
    decreases entries
  {
    EntriesPointwise(entries);
    var pairs := NormalizeEntries(entries).value;
    forall i | 0 <= i < |pairs|
      ensures pairs[i].key.StringKey? && Canonical(pairs[i].value)
    {
      EntryIdempotent(entries[i]);
    }
    KeyOrderSound(pairs);
    var sorted := InKeyOrder(pairs);
    forall k | 0 <= k < |sorted|
      ensures sorted[k].key.StringKey? && Canonical(sorted[k].value)
    {
      var i := InKeyOrderMember(pairs, k);
    }
    EntriesCanonical(sorted);
  }

  // ---------------------------------------------------------------- when insertion order does not matter

  /** Entries whose keys have the same text have the same canonical value. */
  ghost predicate CollisionsAgree(es: seq<Entry>) {
    forall i, j | 0 <= i < |es| && 0 <= j < |es| && es[i].key.text == es[j].key.text ::
      Normalize(es[i].value) == Normalize(es[j].value)
  }

  ghost predicate SameFormInEveryOrder(es: seq<Entry>) {
    forall fs | multiset(fs) == multiset(es) :: Normalize(Dict(fs)) == Normalize(Dict(es))
  }

  /**
   * Every order of inserting the same entries, of whatever keys, gives the same canonical form exactly when the mapping
   * cannot be canonicalised at all or entries with the same key text have the same canonical value.
   */
  lemma SameFormInEveryOrderIff(es: seq<Entry>)
    ensures SameFormInEveryOrder(es) <==> (NormalizeEntries(es).None? || CollisionsAgree(es))
  {
    if NormalizeEntries(es).None? || CollisionsAgree(es) {
      forall fs | multiset(fs) == multiset(es) ensures Normalize(Dict(fs)) == Normalize(Dict(es)) {
        AgreeingOrderKeepsForm(es, fs);
      }
    } else {
      var i, j :| 0 <= i < |es| && 0 <= j < |es| && es[i].key.text == es[j].key.text
        && Normalize(es[i].value) != Normalize(es[j].value);
      MovedLastIsReordering(es, i);
      MovedLastIsReordering(es, j);
      LastInsertedBinds(es, MovedLast(es, i));
      LastInsertedBinds(es, MovedLast(es, j));
      if SameFormInEveryOrder(es) {
        BoundToDecidedByForm(MovedLast(es, i), MovedLast(es, j), es[i].key.text);
      }
    }
  }

  lemma SameMembers(es: seq<Entry>, fs: seq<Entry>)
    requires multiset(fs) == multiset(es)
    ensures forall e :: e in es <==> e in fs
  {
    forall e ensures e in es <==> e in fs {
      assert e in es <==> e in multiset(es);
      assert e in fs <==> e in multiset(fs);
    }
  }

  lemma AgreeingOrderKeepsForm(es: seq<Entry>, fs: seq<Entry>)
    requires multiset(fs) == multiset(es) && (NormalizeEntries(es).None? || CollisionsAgree(es))
    ensures Normalize(Dict(fs)) == Normalize(Dict(es))
  {
    SameMembers(es, fs);
    SameMembersFail(es, fs);
    SameMembersFail(fs, es);
    if NormalizeEntries(es).Some? {
      EntriesAlign(es);
      EntriesAlign(fs);
      AgreeingSorted(es, fs, NormalizeEntries(es).value, NormalizeEntries(fs).value);
    }
  }

  lemma AgreeingSorted(es: seq<Entry>, fs: seq<Entry>, ms: seq<Entry>, ns: seq<Entry>)
    requires (forall e :: e in es <==> e in fs) && CollisionsAgree(es) && Aligned(es, ms) && Aligned(fs, ns)
    ensures InKeyOrder(ms) == InKeyOrder(ns)
  {
    KeyOrderSound(ms);
    KeyOrderSound(ns);
    forall t ensures Lookup(InKeyOrder(ms), t) == Lookup(InKeyOrder(ns), t) { AgreeingLookup(es, fs, ms, ns, t); }
    AscendingUnique(InKeyOrder(ms), InKeyOrder(ns));
  }

  lemma SameMembersFail(es: seq<Entry>, fs: seq<Entry>)
    requires forall e :: e in es ==> e in fs
    ensures NormalizeEntries(es).None? ==> NormalizeEntries(fs).None?
  {
    EntriesPointwise(es);
    EntriesPointwise(fs);
    if NormalizeEntries(es).None? {
      var i :| 0 <= i < |es| && Normalize(es[i].value).None?;
      assert es[i] in fs;
      var j :| 0 <= j < |fs| && fs[j] == es[i];
    }
  }

  /** A canonical entry bound in one order is bound in the other: any two candidates agree. */
  lemma AgreeingLookup(es: seq<Entry>, fs: seq<Entry>, ms: seq<Entry>, ns: seq<Entry>, t: string)
    requires (forall e :: e in es <==> e in fs) && CollisionsAgree(es) && Aligned(es, ms) && Aligned(fs, ns)
    ensures Lookup(ms, t) == Lookup(ns, t)
  {
    var k := LookupIsMember(ms, t);
    var l := LookupIsMember(ns, t);
    if Lookup(ms, t).Some? {
      var j := IndexOf(fs, es[k]);
      assert ns[j].key.text == t;
    }
    if Lookup(ns, t).Some? {
      var i := IndexOf(es, fs[l]);
      assert ms[i].key.text == t;
      assert Normalize(es[i].value) == Normalize(es[k].value);
    }
  }

  lemma IndexOf(es: seq<Entry>, e: Entry) returns (i: nat)
    requires e in es
    ensures i < |es| && es[i] == e
  {
    i :| i < |es| && es[i] == e;
  }

  /** The entries with the i-th moved to the end. */
  function MovedLast(es: seq<Entry>, i: nat): seq<Entry>
    requires i < |es|
  {
    es[..i] + es[i + 1..] + [es[i]]
  }

  lemma MovedLastIsReordering(es: seq<Entry>, i: nat)
    requires i < |es|
    ensures multiset(MovedLast(es, i)) == multiset(es)
    ensures MovedLast(es, i) != [] && MovedLast(es, i)[|es| - 1] == es[i] && |MovedLast(es, i)| == |es|
  {
    assert es == es[..i] + [es[i]] + es[i + 1..];
  }

  /** The value bound to a key text in the canonical form of a mapping. */
  function BoundTo(es: seq<Entry>, t: string): Option<Value> {
    var n := NormalizeEntries(es);
    if n.None? then None
    else
      var e := Lookup(InKeyOrder(n.value), t);
      if e.None? then None else Some(e.value.value)
  }

  lemma BoundToDecidedByForm(es: seq<Entry>, fs: seq<Entry>, t: string)
    requires Normalize(Dict(es)) == Normalize(Dict(fs))
    ensures BoundTo(es, t) == BoundTo(fs, t)
  {
  }

  /** Inserted last, an entry binds its key text. */
  lemma LastInsertedBinds(es: seq<Entry>, fs: seq<Entry>)
    requires multiset(fs) == multiset(es) && fs != [] && NormalizeEntries(es).Some?
    ensures BoundTo(fs, fs[|fs| - 1].key.text) == Normalize(fs[|fs| - 1].value)
  {
    SameMembers(es, fs);
    SameMembersFail(fs, es);
    EntriesAlign(fs);
    LastEntryBinds(fs, NormalizeEntries(fs).value);
  }

  lemma LastEntryBinds(fs: seq<Entry>, ns: seq<Entry>)
    requires fs != [] && Aligned(fs, ns)
    ensures var e, bound := fs[|fs| - 1], Lookup(InKeyOrder(ns), fs[|fs| - 1].key.text);
            bound.Some? && Some(bound.value.value) == Normalize(e.value)
  {
    KeyOrderSound(ns);
    LastIsFound(ns);
  }

  lemma {:induction false} LastIsFound(pairs: seq<Entry>)
    requires pairs != []
    ensures Lookup(pairs, pairs[|pairs| - 1].key.text) == Some(pairs[|pairs| - 1])
  {
    if |pairs| > 1 { LastIsFound(pairs[1..]); }
  }

  /**
   * String keys are needed: with the keys 1 and "1" in one mapping, the order of insertion decides the canonical form.
   */
  lemma CollidingKeysDependOnOrder()
    ensures var one, text := Entry(OtherKey("1"), Int(1)), Entry(StringKey("1"), Int(2));
            Normalize(Dict([one, text])) != Normalize(Dict([text, one]))
  {
    var one, text := Entry(OtherKey("1"), Int(1)), Entry(StringKey("1"), Int(2));
    assert Normalize(Dict([one, text])) == Some(Dict([text])) by {
      assert [one, text][1..] == [text];
      EntriesOfTwo(one, text);
    }
    assert Normalize(Dict([text, one])) == Some(Dict([Entry(StringKey("1"), Int(1))])) by {
      assert [text, one][1..] == [one];
      EntriesOfTwo(text, one);
    }
  }

  lemma EntriesOfTwo(e: Entry, f: Entry)
    requires e.value.Int? && f.value.Int?
    ensures NormalizeEntries([e, f])
         == Some([Entry(StringKey(e.key.text), e.value), Entry(StringKey(f.key.text), f.value)])
    ensures e.key.text == f.key.text ==>
              Normalize(Dict([e, f])) == Some(Dict([Entry(StringKey(f.key.text), f.value)]))
  {
    EntriesPointwise([e, f]);
    assert Normalize(e.value) == Some(e.value) && Normalize(f.value) == Some(f.value);
    var p, q := Entry(StringKey(e.key.text), e.value), Entry(StringKey(f.key.text), f.value);
    assert NormalizeEntries([e, f]).value == [p, q];
    assert [p, q][1..] == [q] && [q][1..] == [];
    assert InKeyOrder([q]) == [q];
    if e.key.text == f.key.text { BeforeIsStrict(e.key.text); }
  }

  // ---------------------------------------------------------------- the forms, told by the values

  /**
   * A finite number takes the form of a float with six decimals, at most half of 0.000001 away, a tie going to the even
   * last digit; one that has six decimals already keeps its value. A decimal takes the form of the float of its value.
   */
  lemma NumbersTold(x: real)
    ensures Normalize(Float(Finite(x))).Some? && Normalize(Decimal(Finite(x))) == Normalize(Float(Finite(x)))
    ensures var y := Round(x, SCALE_6);
            && Normalize(Float(Finite(x))) == Some(Float(Finite(y)))
            && OnGrid(y, 1_000_000) && Abs(y - x) <= 0.0000005 && (OnGrid(x, 1_000_000) ==> y == x)
            && (Abs(y - x) == 0.0000005 ==> (y * 1_000_000.0).Floor % 2 == 0)
  {
    RoundError(x, SCALE_6);
    RoundLandsOnGrid(x, SCALE_6);
    if OnGrid(x, SCALE_6) { RoundFixesGrid(x, SCALE_6); }
    MillionthsTold(x, HalfEven(x * 1_000_000.0));
  }

  lemma MillionthsTold(x: real, k: int)
    requires k == HalfEven(x * 1_000_000.0)
    ensures Round(x, SCALE_6) * 1_000_000.0 == k as real
    ensures Abs(Round(x, SCALE_6) - x) == 0.0000005 ==> k % 2 == 0
  {
    var y := Round(x, SCALE_6);
    assert y * 1_000_000.0 == k as real;
    if Abs(y - x) == 0.0000005 {
      assert x * 1_000_000.0 == k as real - 0.5 || x * 1_000_000.0 == k as real + 0.5;
    }
  }

  /** A tuple takes the form of the list of its items; what is no container and no float is its own form. */
  lemma OthersTold(v: Value, items: seq<Value>)
    ensures Normalize(Tuple(items)) == Normalize(List(items))
    ensures v.Null? || v.Bool? || v.Int? || v.Str? || v.Opaque? ==> Normalize(v) == Some(v)
  {
  }

  /** A text is bound to the last pair that has it, wherever it stands. */
  lemma {:induction false} LastPairBinds(pairs: seq<Entry>, t: string, k: nat)
    requires k < |pairs| && pairs[k].key.text == t && forall i | k < i < |pairs| :: pairs[i].key.text != t
    ensures Lookup(pairs, t) == Some(pairs[k])
  {
    if k > 0 {
      LastPairBinds(pairs[1..], t, k - 1);
    } else {
      var j := LookupIsMember(pairs[1..], t);
      assert Lookup(pairs[1..], t).None?;
    }
  }
}
