/** Decoded JSON and the equality key that enum and uniqueItems de-duplication use. */
module JsonValues {
  import opened FiniteSets
  import opened Prelude
  import opened Rationals

  /** json.Number keeps its spelling; the rational is absent when the literal is refused as too long or too large. */
  datatype Number = Number(text: string, rational: Option<Rational>)

  datatype Json =
    | JNull
    | JBool(b: bool)
    | JString(s: string)
    | JNumber(n: Number)
    | JArray(items: seq<Json>)
    | JObject(fields: map<string, Json>)

  type Node = map<string, Json>

  predicate NumbersEqual(l: Number, r: Number) {
    l.rational.Some? && r.rational.Some? && l.rational.value.Same(r.rational.value)
  }

  /** Structural comparison used by const and enum. */
  predicate JsonValuesEqual(l: Json, r: Json)
    decreases l
  {
    match l
    case JNumber(n) => r.JNumber? && NumbersEqual(n, r.n)
    case JArray(items) =>
      && r.JArray?
      && |items| == |r.items|
      && forall i | 0 <= i < |items| :: JsonValuesEqual(items[i], r.items[i])
    case JObject(fields) =>
      && r.JObject?
      && |fields| == |r.fields|
      && forall k | k in fields :: k in r.fields && JsonValuesEqual(fields[k], r.fields[k])
    case _ => l == r
  }

  /** Equal sizes and one inclusion make the key sets of equal objects equal. */
  lemma EqualObjectsShareKeys(l: Json, r: Json)
    requires l.JObject? && JsonValuesEqual(l, r)
    ensures r.JObject? && l.fields.Keys == r.fields.Keys
  {
    assert l.fields.Keys <= r.fields.Keys;
    SubsetOfSameSize(l.fields.Keys, r.fields.Keys);
  }
}

module EqualityKey {
  import opened JsonValues
  import opened Prelude
  import opened Rationals
  import opened Strings

  const MAX_DEPTH := 128

  /** No number the key cannot render and no level below 128. */
  ghost predicate HasKey(v: Json, depth: nat)
    decreases v
  {
    && depth <= MAX_DEPTH
    && match v
       case JNumber(n) => n.rational.Some?
       case JArray(items) => forall i | 0 <= i < |items| :: HasKey(items[i], depth + 1)
       case JObject(fields) => forall k | k in fields :: HasKey(fields[k], depth + 1)
       case _ => true
  }

  ghost predicate AllNumbersValid(v: Json) {
    match v
    case JNumber(n) => n.rational.Some?
    case JArray(items) => forall i | 0 <= i < |items| :: AllNumbersValid(items[i])
    case JObject(fields) => forall k | k in fields :: AllNumbersValid(fields[k])
    case _ => true
  }

  lemma {:induction false} KeyedNumbersAreValid(v: Json, depth: nat)
    requires HasKey(v, depth)
    ensures AllNumbersValid(v)
  {
    match v
    case JArray(items) =>
      forall i | 0 <= i < |items| ensures AllNumbersValid(items[i]) { KeyedNumbersAreValid(items[i], depth + 1); }
    case JObject(fields) =>
      forall k | k in fields ensures AllNumbersValid(fields[k]) { KeyedNumbersAreValid(fields[k], depth + 1); }
    case _ =>
  }

  function Prefixed(length: nat, mark: char): string {
    Itoa(length) + [mark]
  }

  /** The text the key builder appends for a value. */
  ghost function Key(v: Json): string
    requires AllNumbersValid(v)
    decreases v, 2
  {
    match v
    case JNull => "n;"
    case JBool(b) => if b then "b1;" else "b0;"
    case JString(s) => "s" + Prefixed(|s|, ':') + s
    case JNumber(n) => var text := RatString(n.rational.value); "d" + Prefixed(|text|, ':') + text
    case JArray(items) => "a" + Prefixed(|items|, '[') + ItemKeys(items) + "]"
    case JObject(fields) => "o" + Prefixed(|fields|, '{') + EntryKeys(v, SortedSet(fields.Keys)) + "}"
  }

  ghost function ItemKeys(items: seq<Json>): string
    requires forall i | 0 <= i < |items| :: AllNumbersValid(items[i])
    decreases items, 0
  {
    if items == [] then "" else Key(items[0]) + ItemKeys(items[1..])
  }

  ghost function EntryKey(v: Json, key: string): string
    requires v.JObject? && key in v.fields && AllNumbersValid(v.fields[key])
    decreases v, 0
  {
    Prefixed(|key|, ':') + key + Key(v.fields[key])
  }

  ghost function EntryKeys(v: Json, keys: seq<string>): string
    requires v.JObject?
    requires forall k :: k in keys ==> k in v.fields && AllNumbersValid(v.fields[k])
    decreases v, 1, |keys|
  {
    if keys == [] then "" else EntryKey(v, keys[0]) + EntryKeys(v, keys[1..])
  }

  lemma PrefixIsDelimited(m: nat, n: nat, mark: char, x: string, y: string)
    requires !IsDigit(mark)
    requires Prefixed(m, mark) + x == Prefixed(n, mark) + y
    ensures m == n && x == y
  {
    assert Itoa(m) + [mark] + x == Itoa(n) + [mark] + y;
    LengthPrefixIsDelimited(m, n, mark, x, y);
  }

  lemma TextIsDelimited(a: string, b: string, s: string, t: string)
    requires Prefixed(|a|, ':') + a + s == Prefixed(|b|, ':') + b + t
    ensures a == b && s == t
  {
    assert Prefixed(|a|, ':') + (a + s) == Prefixed(|a|, ':') + a + s;
    assert Prefixed(|b|, ':') + (b + t) == Prefixed(|b|, ':') + b + t;
    PrefixIsDelimited(|a|, |b|, ':', a + s, b + t);
    assert a == (a + s)[..|a|] && b == (b + t)[..|b|];
    assert s == (a + s)[|a|..] && t == (b + t)[|b|..];
  }

  /** A key begins with the mark of its kind. */
  function Mark(v: Json): char {
    match v
    case JNull => 'n'
    case JBool(_) => 'b'
    case JString(_) => 's'
    case JNumber(_) => 'd'
    case JArray(_) => 'a'
    case JObject(_) => 'o'
  }

  /** A key after its mark. */
  ghost function Body(v: Json): string
    requires AllNumbersValid(v)
  {
    match v
    case JNull => ";"
    case JBool(b) => if b then "1;" else "0;"
    case JString(s) => Prefixed(|s|, ':') + s
    case JNumber(n) => var text := RatString(n.rational.value); Prefixed(|text|, ':') + text
    case JArray(items) => Prefixed(|items|, '[') + ItemKeys(items) + [']']
    case JObject(fields) => Prefixed(|fields|, '{') + EntryKeys(v, SortedSet(fields.Keys)) + ['}']
  }

  lemma KeyIsMarked(v: Json)
    requires AllNumbersValid(v)
    ensures Key(v) == [Mark(v)] + Body(v)
  {
    match v
    case JNull =>
    case JBool(_) =>
    case JString(text) => JoinedTwo("s", Prefixed(|text|, ':'), text);
    case JNumber(n) =>
      var text := RatString(n.rational.value);
      JoinedTwo("d", Prefixed(|text|, ':'), text);
    case JArray(items) => Joined("a", Prefixed(|items|, '['), ItemKeys(items), "]");
    case JObject(fields) => Joined("o", Prefixed(|fields|, '{'), EntryKeys(v, SortedSet(fields.Keys)), "}");
  }

  lemma JoinedTwo(mark: string, prefix: string, inner: string)
    ensures mark + prefix + inner == mark + (prefix + inner)
  {
  }

  lemma Joined(mark: string, prefix: string, inner: string, close: string)
    ensures mark + prefix + inner + close == mark + (prefix + inner + close)
  {
  }

  lemma KeyIsMarkAndBody(v: Json, s: string)
    requires AllNumbersValid(v)
    ensures Key(v) + s == [Mark(v)] + (Body(v) + s)
  {
    KeyIsMarked(v);
    JoinedTwo([Mark(v)], Body(v), s);
  }

  /** Self-delimiting: whatever follows, a key ends where it must, and determines its value. */
  lemma {:induction false} KeyIsDelimited(v: Json, w: Json, s: string, t: string)
    requires AllNumbersValid(v) && AllNumbersValid(w)
    requires Key(v) + s == Key(w) + t
    ensures JsonValuesEqual(v, w) && s == t
    decreases v, 2
  {
    KeyIsMarkAndBody(v, s);
    KeyIsMarkAndBody(w, t);
    var x, y := [Mark(v)] + (Body(v) + s), [Mark(w)] + (Body(w) + t);
    assert Mark(v) == x[0] == y[0] == Mark(w);
    assert Body(v) + s == x[1..] == y[1..] == Body(w) + t;
    if v.JArray? {
      ArrayKeyIsDelimited(v, w, s, t);
    } else if v.JObject? {
      ObjectKeyIsDelimited(v, w, s, t);
    } else {
      ScalarKeyIsDelimited(v, w, s, t);
    }
  }

  lemma ScalarKeyIsDelimited(v: Json, w: Json, s: string, t: string)
    requires AllNumbersValid(v) && AllNumbersValid(w)
    requires Mark(v) == Mark(w) && !v.JArray? && !v.JObject?
    requires Body(v) + s == Body(w) + t
    ensures JsonValuesEqual(v, w) && s == t
  {
    var x, y := Body(v) + s, Body(w) + t;
    match v
    case JNull =>
      assert x[1..] == s && y[1..] == t;
    case JBool(b) =>
      assert x[0] == Body(v)[0] && y[0] == Body(w)[0];
      assert x[2..] == s && y[2..] == t;
    case JString(a) =>
      TextIsDelimited(a, w.s, s, t);
    case JNumber(n) =>
      TextIsDelimited(RatString(n.rational.value), RatString(w.n.rational.value), s, t);
      RatStringIsInjective(n.rational.value, w.n.rational.value);
  }

  lemma ClosedIsDelimited(m: nat, n: nat, mark: char, close: char, a: string, b: string, s: string, t: string)
    requires !IsDigit(mark)
    requires Prefixed(m, mark) + a + [close] + s == Prefixed(n, mark) + b + [close] + t
    ensures m == n && a + ([close] + s) == b + ([close] + t)
  {
    assert Prefixed(m, mark) + (a + ([close] + s)) == Prefixed(m, mark) + a + [close] + s;
    assert Prefixed(n, mark) + (b + ([close] + t)) == Prefixed(n, mark) + b + [close] + t;
    PrefixIsDelimited(m, n, mark, a + ([close] + s), b + ([close] + t));
  }

  lemma ArrayKeyIsDelimited(v: Json, w: Json, s: string, t: string)
    requires v.JArray? && w.JArray? && AllNumbersValid(v) && AllNumbersValid(w)
    requires Body(v) + s == Body(w) + t
    ensures JsonValuesEqual(v, w) && s == t
    decreases v, 1
  {
    var a, b := ItemKeys(v.items), ItemKeys(w.items);
    ClosedIsDelimited(|v.items|, |w.items|, '[', ']', a, b, s, t);
    ItemKeysAreDelimited(v.items, w.items, [']'] + s, [']'] + t);
    assert ([']'] + s)[1..] == s && ([']'] + t)[1..] == t;
  }

  lemma ItemKeysUnfold(items: seq<Json>, s: string)
    requires items != [] && forall i | 0 <= i < |items| :: AllNumbersValid(items[i])
    ensures ItemKeys(items) + s == Key(items[0]) + (ItemKeys(items[1..]) + s)
  {
  }

  lemma EntryKeysUnfold(v: Json, keys: seq<string>, s: string)
    requires v.JObject? && keys != []
    requires forall k :: k in keys ==> k in v.fields && AllNumbersValid(v.fields[k])
    ensures EntryKeys(v, keys) + s
         == Prefixed(|keys[0]|, ':') + keys[0] + (Key(v.fields[keys[0]]) + (EntryKeys(v, keys[1..]) + s))
  {
    var prefix, first := Prefixed(|keys[0]|, ':'), Key(v.fields[keys[0]]);
    assert EntryKeys(v, keys) == prefix + keys[0] + first + EntryKeys(v, keys[1..]);
    Regrouped(prefix + keys[0], first, EntryKeys(v, keys[1..]), s);
  }

  lemma Regrouped(a: string, b: string, c: string, d: string)
    ensures a + b + c + d == a + (b + (c + d))
  {
  }

  lemma {:induction false} ItemKeysAreDelimited(a: seq<Json>, b: seq<Json>, s: string, t: string)
    requires forall i | 0 <= i < |a| :: AllNumbersValid(a[i])
    requires forall i | 0 <= i < |b| :: AllNumbersValid(b[i])
    requires |a| == |b| && ItemKeys(a) + s == ItemKeys(b) + t
    ensures forall i | 0 <= i < |a| :: JsonValuesEqual(a[i], b[i])
    ensures s == t
    decreases a, 1
  {
    if a == [] {
      assert ItemKeys(a) + s == s && ItemKeys(b) + t == t;
    } else {
      FirstItemsAgree(a, b, s, t);
      ItemKeysAreDelimited(a[1..], b[1..], s, t);
      forall i | 0 <= i < |a| ensures JsonValuesEqual(a[i], b[i]) {
        if i > 0 { assert a[i] == a[1..][i - 1] && b[i] == b[1..][i - 1]; }
      }
    }
  }

  lemma FirstItemsAgree(a: seq<Json>, b: seq<Json>, s: string, t: string)
    requires a != [] && b != []
    requires forall i | 0 <= i < |a| :: AllNumbersValid(a[i])
    requires forall i | 0 <= i < |b| :: AllNumbersValid(b[i])
    requires ItemKeys(a) + s == ItemKeys(b) + t
    ensures JsonValuesEqual(a[0], b[0]) && ItemKeys(a[1..]) + s == ItemKeys(b[1..]) + t
    decreases a, 0
  {
    ItemKeysUnfold(a, s);
    ItemKeysUnfold(b, t);
    KeyIsDelimited(a[0], b[0], ItemKeys(a[1..]) + s, ItemKeys(b[1..]) + t);
  }

  lemma ObjectKeyIsDelimited(v: Json, w: Json, s: string, t: string)
    requires v.JObject? && w.JObject? && AllNumbersValid(v) && AllNumbersValid(w)
    requires Body(v) + s == Body(w) + t
    ensures JsonValuesEqual(v, w) && s == t
    decreases v, 1
  {
    var ks, ls := SortedSet(v.fields.Keys), SortedSet(w.fields.Keys);
    AscendingSize(ks, v.fields.Keys);
    AscendingSize(ls, w.fields.Keys);
    var a, b := EntryKeys(v, ks), EntryKeys(w, ls);
    ClosedIsDelimited(|v.fields|, |w.fields|, '{', '}', a, b, s, t);
    assert |ks| == |v.fields| && |ls| == |w.fields|;
    EntryKeysAreDelimited(v, w, ks, ls, ['}'] + s, ['}'] + t);
    assert (['}'] + s)[1..] == s && (['}'] + t)[1..] == t;
    forall k | k in v.fields ensures k in w.fields && JsonValuesEqual(v.fields[k], w.fields[k]) {
      assert k in ks && k in ls;
    }
  }

  lemma {:induction false} EntryKeysAreDelimited(
    v: Json, w: Json, ks: seq<string>, ls: seq<string>, s: string, t: string)
    requires v.JObject? && w.JObject?
    requires forall k :: k in ks ==> k in v.fields && AllNumbersValid(v.fields[k])
    requires forall k :: k in ls ==> k in w.fields && AllNumbersValid(w.fields[k])
    requires |ks| == |ls| && EntryKeys(v, ks) + s == EntryKeys(w, ls) + t
    ensures ks == ls && s == t
    ensures forall k :: k in ks ==> JsonValuesEqual(v.fields[k], w.fields[k])
    decreases v, 0, |ks|
  {
    if ks == [] {
      assert EntryKeys(v, ks) + s == s && EntryKeys(w, ls) + t == t;
    } else {
      FirstEntriesAgree(v, w, ks, ls, s, t);
      EntryKeysAreDelimited(v, w, ks[1..], ls[1..], s, t);
      assert ks == [ks[0]] + ks[1..] && ls == [ls[0]] + ls[1..];
    }
  }

  lemma FirstEntriesAgree(v: Json, w: Json, ks: seq<string>, ls: seq<string>, s: string, t: string)
    requires v.JObject? && w.JObject? && ks != [] && ls != []
    requires forall k :: k in ks ==> k in v.fields && AllNumbersValid(v.fields[k])
    requires forall k :: k in ls ==> k in w.fields && AllNumbersValid(w.fields[k])
    requires EntryKeys(v, ks) + s == EntryKeys(w, ls) + t
    ensures ks[0] == ls[0] && JsonValuesEqual(v.fields[ks[0]], w.fields[ls[0]])
    ensures EntryKeys(v, ks[1..]) + s == EntryKeys(w, ls[1..]) + t
    decreases v, 0, 0
  {
    var x, y := EntryKeys(v, ks[1..]) + s, EntryKeys(w, ls[1..]) + t;
    var c, d := Key(v.fields[ks[0]]), Key(w.fields[ls[0]]);
    EntryKeysUnfold(v, ks, s);
    EntryKeysUnfold(w, ls, t);
    TextIsDelimited(ks[0], ls[0], c + x, d + y);
    KeyIsDelimited(v.fields[ks[0]], w.fields[ls[0]], x, y);
  }

  lemma {:induction false} EqualValuesShareKey(v: Json, w: Json)
    requires AllNumbersValid(v) && AllNumbersValid(w)
    requires JsonValuesEqual(v, w)
    ensures Key(v) == Key(w)
    decreases v, 2
  {
    match v
    case JNumber(n) =>
      SameIsEqual(n.rational.value, w.n.rational.value);
    case JArray(items) =>
      EqualItemsShareKeys(items, w.items);
    case JObject(fields) =>
      EqualObjectsShareKeys(v, w);
      EqualEntriesShareKeys(v, w, SortedSet(fields.Keys));
    case _ =>
  }

  lemma {:induction false} EqualItemsShareKeys(a: seq<Json>, b: seq<Json>)
    requires forall i | 0 <= i < |a| :: AllNumbersValid(a[i])
    requires forall i | 0 <= i < |b| :: AllNumbersValid(b[i])
    requires |a| == |b| && forall i | 0 <= i < |a| :: JsonValuesEqual(a[i], b[i])
    ensures ItemKeys(a) == ItemKeys(b)
    decreases a, 0
  {
    if a != [] {
      EqualValuesShareKey(a[0], b[0]);
      EqualItemsShareKeys(a[1..], b[1..]);
    }
  }

  lemma {:induction false} EqualEntriesShareKeys(v: Json, w: Json, ks: seq<string>)
    requires v.JObject? && w.JObject?
    requires forall k :: k in ks ==> k in v.fields && AllNumbersValid(v.fields[k])
    requires forall k :: k in ks ==> k in w.fields && AllNumbersValid(w.fields[k])
    requires forall k :: k in ks ==> JsonValuesEqual(v.fields[k], w.fields[k])
    ensures EntryKeys(v, ks) == EntryKeys(w, ks)
    decreases v, 0, |ks|
  {
    if ks != [] {
      EqualValuesShareKey(v.fields[ks[0]], w.fields[ks[0]]);
      EqualEntriesShareKeys(v, w, ks[1..]);
    }
  }

  /** The key is a faithful encoding: de-duplication by key is de-duplication by value. */
  lemma KeysAgreeExactlyOnEqualValues(v: Json, w: Json)
    requires AllNumbersValid(v) && AllNumbersValid(w)
    ensures Key(v) == Key(w) <==> JsonValuesEqual(v, w)
  {
    if Key(v) == Key(w) {
      KeyIsDelimited(v, w, "", "");
    }
    if JsonValuesEqual(v, w) {
      EqualValuesShareKey(v, w);
    }
  }

  lemma {:induction false} ItemKeysSnoc(items: seq<Json>, last: Json)
    requires forall i | 0 <= i < |items| :: AllNumbersValid(items[i])
    requires AllNumbersValid(last)
    ensures ItemKeys(items + [last]) == ItemKeys(items) + Key(last)
  {
    if items == [] {
      assert [last] == [last] + [] && ItemKeys([last]) == Key(last) + "";
    } else {
      assert (items + [last])[1..] == items[1..] + [last];
      ItemKeysSnoc(items[1..], last);
    }
  }

  lemma {:induction false} EntryKeysSnoc(v: Json, keys: seq<string>, last: string)
    requires v.JObject?
    requires forall k :: k in keys + [last] ==> k in v.fields && AllNumbersValid(v.fields[k])
    ensures EntryKeys(v, keys + [last]) == EntryKeys(v, keys) + EntryKey(v, last)
  {
    if keys == [] {
      assert keys + [last] == [last] && EntryKeys(v, [last]) == EntryKey(v, last) + "";
    } else {
      var longer := keys + [last];
      assert longer[1..] == keys[1..] + [last] && longer[0] == keys[0];
      assert forall k :: k in keys[1..] + [last] ==> k in longer;
      EntryKeysSnoc(v, keys[1..], last);
      assert EntryKeys(v, longer) == EntryKey(v, keys[0]) + (EntryKeys(v, keys[1..]) + EntryKey(v, last));
    }
  }

  /** strings.Builder. */
  class StringBuilder {
    var text: string

    constructor ()
      ensures text == ""
    {
      text := "";
    }

    method WriteString(s: string)
      modifies this
      ensures text == old(text) + s
    {
      text := text + s;
    }
  }

  /** Writes the key of v, or reports that v has none. */
  method AppendEqualityKey(builder: StringBuilder, v: Json, depth: nat) returns (ok: bool)
    modifies builder
    ensures ok <==> HasKey(v, depth)
    ensures ok ==> AllNumbersValid(v) && builder.text == old(builder.text) + Key(v)
    decreases v, 1
  {
    if depth > MAX_DEPTH {
      return false;
    }
    match v
    case JNull =>
      builder.WriteString("n;");
      return true;
    case JBool(b) =>
      builder.WriteString(if b then "b1;" else "b0;");
      return true;
    case JString(s) =>
      AppendText(builder, 's', s);
      return true;
    case JNumber(n) =>
      if n.rational.None? {
        return false;
      }
      AppendText(builder, 'd', RatString(n.rational.value));
      return true;
    case JArray(items) =>
      ok := AppendArrayKey(builder, v, depth);
    case JObject(fields) =>
      ok := AppendObjectKey(builder, v, depth);
  }

  method AppendText(builder: StringBuilder, mark: char, s: string)
    modifies builder
    ensures builder.text == old(builder.text) + ([mark] + Prefixed(|s|, ':') + s)
  {
    AppendHeader(builder, mark, |s|, ':');
    builder.WriteString(s);
    assert old(builder.text) + ([mark] + Prefixed(|s|, ':')) + s
        == old(builder.text) + ([mark] + Prefixed(|s|, ':') + s);
  }

  method AppendHeader(builder: StringBuilder, mark: char, length: nat, open: char)
    modifies builder
    ensures builder.text == old(builder.text) + ([mark] + Prefixed(length, open))
  {
    builder.WriteString([mark]);
    builder.WriteString(Itoa(length));
    builder.WriteString([open]);
    assert old(builder.text) + [mark] + Itoa(length) + [open] == old(builder.text) + ([mark] + (Itoa(length) + [open]));
  }

  lemma Assembled(start: string, header: string, inner: string, close: string)
    ensures start + header + inner + close == start + (header + inner + close)
  {
  }

  method AppendArrayKey(builder: StringBuilder, v: Json, depth: nat) returns (ok: bool)
    requires v.JArray? && depth <= MAX_DEPTH
    modifies builder
    ensures ok <==> HasKey(v, depth)
    ensures ok ==> AllNumbersValid(v) && builder.text == old(builder.text) + Key(v)
    decreases v, 0
  {
    AppendHeader(builder, 'a', |v.items|, '[');
    ok := AppendItemKeys(builder, v.items, depth);
    if ok {
      KeyedNumbersAreValid(v, depth);
      builder.WriteString("]");
      Assembled(old(builder.text), ['a'] + Prefixed(|v.items|, '['), ItemKeys(v.items), "]");
    }
  }

  method AppendItemKeys(builder: StringBuilder, items: seq<Json>, depth: nat) returns (ok: bool)
    modifies builder
    ensures ok <==> forall i | 0 <= i < |items| :: HasKey(items[i], depth + 1)
    ensures ok ==> forall i | 0 <= i < |items| :: AllNumbersValid(items[i])
    ensures ok ==> builder.text == old(builder.text) + ItemKeys(items)
    decreases items, 1
  {
    for i := 0 to |items|
      invariant forall j | 0 <= j < i :: HasKey(items[j], depth + 1) && AllNumbersValid(items[j])
      invariant builder.text == old(builder.text) + ItemKeys(items[..i])
    {
      var written := AppendEqualityKey(builder, items[i], depth + 1);
      if !written {
        return false;
      }
      ItemKeysSnoc(items[..i], items[i]);
      assert items[..i + 1] == items[..i] + [items[i]];
    }
    assert items[..|items|] == items;
    return true;
  }

  method AppendObjectKey(builder: StringBuilder, v: Json, depth: nat) returns (ok: bool)
    requires v.JObject? && depth <= MAX_DEPTH
    modifies builder
    ensures ok <==> HasKey(v, depth)
    ensures ok ==> AllNumbersValid(v) && builder.text == old(builder.text) + Key(v)
    decreases v, 0, 2
  {
    var keys := SortedFieldNames(v.fields);
    AscendingSize(keys, v.fields.Keys);
    AppendHeader(builder, 'o', |keys|, '{');
    ok := AppendEntryKeys(builder, v, keys, depth);
    if ok {
      KeyedNumbersAreValid(v, depth);
      builder.WriteString("}");
      Assembled(old(builder.text), ['o'] + Prefixed(|keys|, '{'), EntryKeys(v, keys), "}");
      KeyOfObject(v, keys);
    }
  }

  lemma KeyOfObject(v: Json, keys: seq<string>)
    requires v.JObject? && AllNumbersValid(v) && keys == SortedSet(v.fields.Keys) && |keys| == |v.fields|
    ensures Key(v) == ['o'] + Prefixed(|keys|, '{') + EntryKeys(v, keys) + "}"
  {
  }

  method AppendEntryKeys(builder: StringBuilder, v: Json, keys: seq<string>, depth: nat) returns (ok: bool)
    requires v.JObject? && forall k :: k in keys ==> k in v.fields
    modifies builder
    ensures ok <==> forall k :: k in keys ==> HasKey(v.fields[k], depth + 1)
    ensures ok ==> forall k :: k in keys ==> AllNumbersValid(v.fields[k])
    ensures ok ==> builder.text == old(builder.text) + EntryKeys(v, keys)
    decreases v, 0, 1
  {
    for i := 0 to |keys|
      invariant forall k :: k in keys[..i] ==> HasKey(v.fields[k], depth + 1) && AllNumbersValid(v.fields[k])
      invariant builder.text == old(builder.text) + EntryKeys(v, keys[..i])
    {
      var written := AppendEntryKey(builder, v, keys[i], depth);
      if !written {
        return false;
      }
      EntryKeysSnoc(v, keys[..i], keys[i]);
      assert keys[..i + 1] == keys[..i] + [keys[i]];
    }
    assert keys[..|keys|] == keys;
    return true;
  }

  method AppendEntryKey(builder: StringBuilder, v: Json, key: string, depth: nat) returns (ok: bool)
    requires v.JObject? && key in v.fields
    modifies builder
    ensures ok <==> HasKey(v.fields[key], depth + 1)
    ensures ok ==> AllNumbersValid(v.fields[key]) && builder.text == old(builder.text) + EntryKey(v, key)
    decreases v, 0, 0
  {
    ghost var start := builder.text;
    builder.WriteString(Itoa(|key|));
    builder.WriteString(":");
    builder.WriteString(key);
    assert builder.text == start + (Prefixed(|key|, ':') + key);
    ok := AppendEqualityKey(builder, v.fields[key], depth + 1);
    if ok {
      assert builder.text == start + EntryKey(v, key);
    }
  }

  /** The field names, gathered in any order and then sorted. */
  method SortedFieldNames(fields: Node) returns (keys: seq<string>)
    ensures keys == SortedSet(fields.Keys)
  {
    keys := [];
    var rest := fields.Keys;
    while rest != {}
      invariant rest <= fields.Keys
      invariant forall k :: k in keys <==> k in fields && k !in rest
    {
      var k :| k in rest;
      keys := keys + [k];
      rest := rest - {k};
    }
    keys := SortDistinct(keys);
    SortedSetIs(fields.Keys, keys);
  }

  method CanonicalEqualityKey(v: Json) returns (key: Option<string>)
    ensures key.Some? <==> HasKey(v, 0)
    ensures key.Some? ==> AllNumbersValid(v) && key.value == Key(v)
  {
    var builder := new StringBuilder();
    var ok := AppendEqualityKey(builder, v, 0);
    return if ok then Some(builder.text) else None;
  }

  ghost predicate DistinctValues(items: seq<Json>) {
    && (forall i | 0 <= i < |items| :: HasKey(items[i], 0))
    && (forall i, j | 0 <= i < j < |items| :: !JsonValuesEqual(items[i], items[j]))
  }

  lemma SeenKeysAreEqualValues(items: seq<Json>, i: nat, key: string)
    requires i < |items| && forall j | 0 <= j <= i :: AllNumbersValid(items[j])
    requires key == Key(items[i])
    ensures forall j | 0 <= j < i :: Key(items[j]) == key <==> JsonValuesEqual(items[j], items[i])
  {
    forall j | 0 <= j < i ensures Key(items[j]) == key <==> JsonValuesEqual(items[j], items[i]) {
      KeysAgreeExactlyOnEqualValues(items[j], items[i]);
    }
  }

  /** The first i items have keys, no two of them are equal, and seen holds their keys. */
  ghost predicate DistinctUpTo(items: seq<Json>, i: nat, seen: set<string>)
    requires i <= |items|
  {
    && (forall j | 0 <= j < i :: HasKey(items[j], 0) && AllNumbersValid(items[j]))
    && (forall k, j | 0 <= k < j < i :: !JsonValuesEqual(items[k], items[j]))
    && (forall key :: key in seen <==> IsKeyAmong(items, i, key))
  }

  ghost predicate IsKeyAmong(items: seq<Json>, i: nat, key: string)
    requires i <= |items|
  {
    exists j :: 0 <= j < i && AllNumbersValid(items[j]) && Key(items[j]) == key
  }

  lemma KeysAmongGrow(items: seq<Json>, i: nat, key: string)
    requires i < |items| && AllNumbersValid(items[i])
    ensures IsKeyAmong(items, i + 1, key) <==> IsKeyAmong(items, i, key) || Key(items[i]) == key
  {
    if Key(items[i]) == key {
      assert 0 <= i < i + 1 && AllNumbersValid(items[i]);
    }
  }

  lemma SeenGrows(items: seq<Json>, i: nat, seen: set<string>)
    requires i < |items| && AllNumbersValid(items[i]) && forall key :: key in seen <==> IsKeyAmong(items, i, key)
    ensures forall key :: key in seen + {Key(items[i])} <==> IsKeyAmong(items, i + 1, key)
  {
    forall key ensures key in seen + {Key(items[i])} <==> IsKeyAmong(items, i + 1, key) {
      KeysAmongGrow(items, i, key);
    }
  }

  lemma OneMoreKey(items: seq<Json>, i: nat, seen: set<string>, key: string)
    requires i < |items| && DistinctUpTo(items, i, seen) && HasKey(items[i], 0)
    requires AllNumbersValid(items[i]) && key == Key(items[i])
    ensures key in seen ==> !DistinctValues(items)
    ensures key !in seen ==> DistinctUpTo(items, i + 1, seen + {key})
  {
    SeenKeysAreEqualValues(items, i, key);
    if key in seen {
      assert IsKeyAmong(items, i, key);
      var j :| 0 <= j < i && AllNumbersValid(items[j]) && Key(items[j]) == key;
      assert JsonValuesEqual(items[j], items[i]);
    } else {
      NewKeyIsNoOther(items, i, seen, key);
      SeenGrows(items, i, seen);
    }
  }

  lemma NewKeyIsNoOther(items: seq<Json>, i: nat, seen: set<string>, key: string)
    requires i < |items| && forall j | 0 <= j < i :: AllNumbersValid(items[j])
    requires key !in seen && forall other :: other in seen <==> IsKeyAmong(items, i, other)
    requires forall j | 0 <= j < i :: Key(items[j]) == key <==> JsonValuesEqual(items[j], items[i])
    ensures forall j | 0 <= j < i :: !JsonValuesEqual(items[j], items[i])
  {
    assert !IsKeyAmong(items, i, key);
  }

  /** The de-duplication loop of enum and uniqueItems: a set of seen keys decides equality of values. */
  method AllDistinct(items: seq<Json>) returns (distinct: bool)
    ensures distinct <==> DistinctValues(items)
  {
    var seen: set<string> := {};
    for i := 0 to |items|
      invariant DistinctUpTo(items, i, seen)
    {
      var key := CanonicalEqualityKey(items[i]);
      if key.None? {
        return false;
      }
      OneMoreKey(items, i, seen, key.value);
      if key.value in seen {
        return false;
      }
      seen := seen + {key.value};
    }
    return true;
  }
}
