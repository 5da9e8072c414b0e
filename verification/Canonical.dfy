/** Canonical values and their encoding, which the catalog's digests are taken of (magellan/submission/models.py). */
module Canonical {
  import opened Common
  import Sorting

  /** A character string. */
  type Text = seq<nat>

  /** A payload before it is made canonical; sets and dictionaries list their entries in iteration order. */
  datatype Value =
    | Plain(text: Text)                // None, a boolean or a number, as it is encoded
    | Characters(chars: Text)          // a string
    | Rendered(value: Value)           // an enumeration member, a timestamp or a path, by the value it stands for
    | Items(items: seq<Value>)         // a list or tuple
    | Bag(items: seq<Value>)           // a set
    | Record(entries: seq<Entry>)      // a dictionary with string keys, or a model

  datatype Entry = Entry(name: Text, value: Value)

  /** A JSON-compatible value. */
  datatype Json = Atom(text: Text) | Str(chars: Text) | Arr(elements: seq<Json>) | Obj(fields: seq<Field>)

  datatype Field = Field(name: Text, value: Json)

  datatype Pair = Pair(name: Text, text: Text)

  /** The order of character strings. */
  predicate AtMost(a: Text, b: Text) {
    a == [] || (b != [] && (a[0] < b[0] || (a[0] == b[0] && AtMost(a[1..], b[1..]))))
  }

  predicate NamedAtMost(a: Pair, b: Pair) {
    AtMost(a.name, b.name)
  }

  predicate EncodedAtMost(a: Json, b: Json) {
    AtMost(Encoding(a), Encoding(b))
  }

  // ---------- Canonical form and encoding ----------

  /** Sets become lists sorted by the encoding of their elements; everything else keeps its shape. */
  function CanonicalValue(v: Value): Json
    decreases v
  {
    match v
    case Plain(text) => Atom(text)
    case Characters(chars) => Str(chars)
    case Rendered(value) => CanonicalValue(value)
    case Items(items) => Arr(seq(|items|, i requires 0 <= i < |items| => CanonicalValue(items[i])))
    case Bag(items) =>
      Arr(Sorting.Sorted(seq(|items|, i requires 0 <= i < |items| => CanonicalValue(items[i])), EncodedAtMost))
    case Record(entries) =>
      Obj(seq(|entries|, i requires 0 <= i < |entries| =>
            Field(entries[i].name, CanonicalValue(entries[i].value))))
  }

  const COMMA := 44
  const COLON := 58
  const QUOTE := 34
  const BACKSLASH := 92

  function HexDigit(n: nat): nat
    requires n < 16
  {
    if n < 10 then 48 + n else 87 + n
  }

  /** A character inside a string: quotes, backslashes and control characters are escaped. */
  function EscapedChar(c: nat): Text {
    if c == QUOTE then [BACKSLASH, QUOTE]
    else if c == BACKSLASH then [BACKSLASH, BACKSLASH]
    else if c == 10 then [BACKSLASH, 110]
    else if c == 13 then [BACKSLASH, 114]
    else if c == 9 then [BACKSLASH, 116]
    else if c == 12 then [BACKSLASH, 102]
    else if c == 8 then [BACKSLASH, 98]
    else if c < 32 then [BACKSLASH, 117, 48, 48, HexDigit(c / 16), HexDigit(c % 16)]
    else [c]
  }

  function Escaped(chars: Text): Text {
    if chars == [] then [] else EscapedChar(chars[0]) + Escaped(chars[1..])
  }

  function Quoted(chars: Text): Text {
    [QUOTE] + Escaped(chars) + [QUOTE]
  }

  function Joined(texts: seq<Text>): Text {
    if texts == [] then [] else if |texts| == 1 then texts[0] else texts[0] + [COMMA] + Joined(texts[1..])
  }

  function PairTexts(pairs: seq<Pair>): seq<Text> {
    seq(|pairs|, i requires 0 <= i < |pairs| => PairText(pairs[i]))
  }

  function PairText(p: Pair): Text {
    Quoted(p.name) + [COLON] + p.text
  }

  function Listed(texts: seq<Text>): Text {
    [91] + Joined(texts) + [93]
  }

  function Keyed(pairs: seq<Pair>): Text {
    [123] + Joined(PairTexts(Sorting.Sorted(pairs, NamedAtMost))) + [125]
  }

  /** `json.dumps(..., sort_keys=True)` without spaces; keys are sorted as they are and written as strings. */
  function Encoding(j: Json): Text
    decreases j
  {
    match j
    case Atom(text) => text
    case Str(chars) => Quoted(chars)
    case Arr(elements) => Listed(seq(|elements|, i requires 0 <= i < |elements| => Encoding(elements[i])))
    case Obj(fields) =>
      Keyed(seq(|fields|, i requires 0 <= i < |fields| => Pair(fields[i].name, Encoding(fields[i].value))))
  }

  function CanonicalText(v: Value): Text {
    Encoding(CanonicalValue(v))
  }

  /** A canonical value, taken as a payload again. */
  function AsValue(j: Json): Value
    decreases j
  {
    match j
    case Atom(text) => Plain(text)
    case Str(chars) => Characters(chars)
    case Arr(elements) => Items(seq(|elements|, i requires 0 <= i < |elements| => AsValue(elements[i])))
    case Obj(fields) =>
      Record(seq(|fields|, i requires 0 <= i < |fields| => Entry(fields[i].name, AsValue(fields[i].value))))
  }

  // ---------- Idempotence ----------

  /** Making a canonical value canonical changes nothing. */
  lemma {:induction false} CanonicalIsIdempotent(j: Json)
    ensures CanonicalValue(AsValue(j)) == j
    decreases j
  {
    match j {
      case Atom(_) =>
      case Str(_) =>
      case Arr(elements) =>
        forall i | 0 <= i < |elements| ensures CanonicalValue(AsValue(elements[i])) == elements[i] {
          CanonicalIsIdempotent(elements[i]);
        }
        assert CanonicalValue(AsValue(j)).elements == elements;
      case Obj(fields) =>
        forall i | 0 <= i < |fields| ensures CanonicalValue(AsValue(fields[i].value)) == fields[i].value {
          CanonicalIsIdempotent(fields[i].value);
        }
        assert CanonicalValue(AsValue(j)).fields == fields;
    }
  }

  // ---------- The order of texts ----------

  lemma {:induction false} AtMostTotal(a: Text, b: Text)
    ensures AtMost(a, b) || AtMost(b, a)
    ensures AtMost(a, b) && AtMost(b, a) ==> a == b
  {
    if a != [] && b != [] && a[0] == b[0] {
      AtMostTotal(a[1..], b[1..]);
      assert a == [a[0]] + a[1..] && b == [b[0]] + b[1..];
    }
  }

  lemma {:induction false} AtMostTransitive(a: Text, b: Text, c: Text)
    requires AtMost(a, b) && AtMost(b, c)
    ensures AtMost(a, c)
  {
    if a != [] && a[0] == b[0] == c[0] {
      AtMostTransitive(a[1..], b[1..], c[1..]);
    }
  }

  lemma AtMostIsOrder()
    ensures Sorting.IsOrder(AtMost)
  {
    forall a: Text, b: Text ensures AtMost(a, b) || AtMost(b, a) {
      AtMostTotal(a, b);
    }
    forall a: Text, b: Text, c: Text | AtMost(a, b) && AtMost(b, c) ensures AtMost(a, c) {
      AtMostTransitive(a, b, c);
    }
  }

  lemma NamedIsOrder()
    ensures Sorting.IsOrder(NamedAtMost)
  {
    hide AtMost;
    forall a: Pair, b: Pair ensures NamedAtMost(a, b) || NamedAtMost(b, a) {
      AtMostTotal(a.name, b.name);
    }
    forall a: Pair, b: Pair, c: Pair | NamedAtMost(a, b) && NamedAtMost(b, c) ensures NamedAtMost(a, c) {
      AtMostTransitive(a.name, b.name, c.name);
    }
  }

  lemma TextsDoNotTie(s: seq<Text>)
    ensures Sorting.TiesAreEqual(s, AtMost)
  {
    forall i, j | 0 <= i < |s| && 0 <= j < |s| && AtMost(s[i], s[j]) && AtMost(s[j], s[i]) ensures s[i] == s[j] {
      AtMostTotal(s[i], s[j]);
    }
  }

  lemma NamesDoNotTie(s: seq<Pair>)
    requires forall i, j | 0 <= i < j < |s| :: s[i].name != s[j].name
    ensures Sorting.TiesAreEqual(s, NamedAtMost)
  {
    hide AtMost;
    forall i, j | 0 <= i < |s| && 0 <= j < |s| && NamedAtMost(s[i], s[j]) && NamedAtMost(s[j], s[i])
      ensures s[i] == s[j]
    {
      AtMostTotal(s[i].name, s[j].name);
    }
  }

  // ---------- Sorting values by their encoding sorts the encodings ----------

  function Encodings(js: seq<Json>): seq<Text> {
    Sorting.Map(js, Encoding)
  }

  lemma {:induction false} EncodingsPointwise(js: seq<Json>)
    ensures Encodings(js) == seq(|js|, i requires 0 <= i < |js| => Encoding(js[i]))
  {
    hide Encoding;
    if js != [] {
      EncodingsPointwise(js[1..]);
    }
  }

  lemma SortEncodes(s: seq<Json>)
    ensures Encodings(Sorting.Sorted(s, EncodedAtMost)) == Sorting.Sorted(Encodings(s), AtMost)
  {
    hide AtMost, Encoding;
    Sorting.SortMaps(s, Encoding, EncodedAtMost, AtMost);
  }

  // ---------- Equal up to order ----------

  ghost predicate Permutation(p: seq<nat>, n: nat) {
    && |p| == n && (forall i | 0 <= i < n :: p[i] < n)
    && (forall i, j | 0 <= i < j < n :: p[i] != p[j])
  }

  /** Equal but for the iteration order of sets and dictionaries, at every depth. */
  ghost predicate SameUpToOrder(v: Value, w: Value)
    decreases v
  {
    match (v, w)
    case (Plain(a), Plain(b)) => a == b
    case (Characters(a), Characters(b)) => a == b
    case (Rendered(a), Rendered(b)) => SameUpToOrder(a, b)
    case (Items(a), Items(b)) => |a| == |b| && forall i | 0 <= i < |a| :: SameUpToOrder(a[i], b[i])
    case (Bag(a), Bag(b)) =>
      |a| == |b| && exists p :: Permutation(p, |a|) && forall i | 0 <= i < |a| :: SameUpToOrder(a[i], b[p[i]])
    case (Record(a), Record(b)) =>
      |a| == |b| && exists p :: Permutation(p, |a|) &&
                                forall i | 0 <= i < |a| :: a[i].name == b[p[i]].name
                                                           && SameUpToOrder(a[i].value, b[p[i]].value)
    case _ => false
  }

  /** Dictionaries do not repeat a key. */
  predicate WellFormed(v: Value)
    decreases v
  {
    match v
    case Plain(_) => true
    case Characters(_) => true
    case Rendered(value) => WellFormed(value)
    case Items(a) => forall i | 0 <= i < |a| :: WellFormed(a[i])
    case Bag(a) => forall i | 0 <= i < |a| :: WellFormed(a[i])
    case Record(a) =>
      && (forall i | 0 <= i < |a| :: WellFormed(a[i].value))
      && (forall i, j | 0 <= i < j < |a| :: a[i].name != a[j].name)
  }

  function Without<T>(s: seq<T>, k: nat): seq<T>
    requires k < |s|
  {
    s[..k] + s[k + 1..]
  }

  lemma {:induction false} PermutedMultiset<T>(a: seq<T>, b: seq<T>, p: seq<nat>)
    requires |a| == |b| && Permutation(p, |a|) && forall i | 0 <= i < |a| :: a[i] == b[p[i]]
    ensures multiset(a) == multiset(b)
    decreases |a|
  {
    if a != [] {
      var last := |a| - 1;
      var k := p[last];
      var b' := Without(b, k);
      var p': seq<nat> := seq(last, i requires 0 <= i < last => if p[i] < k then p[i] else p[i] - 1);
      forall i, j | 0 <= i < j < last ensures p'[i] != p'[j] {
        assert p[i] != p[last] && p[j] != p[last];
      }
      forall i | 0 <= i < last ensures p'[i] < last && a[..last][i] == b'[p'[i]] {
        assert p[i] != p[last];
      }
      PermutedMultiset(a[..last], b', p');
      assert a == a[..last] + [a[last]];
      assert b == b[..k] + [b[k]] + b[k + 1..];
    }
  }

  function CanonicalTexts(vs: seq<Value>): seq<Text> {
    seq(|vs|, i requires 0 <= i < |vs| => CanonicalText(vs[i]))
  }

  function CanonicalPairs(es: seq<Entry>): seq<Pair> {
    seq(|es|, i requires 0 <= i < |es| => Pair(es[i].name, CanonicalText(es[i].value)))
  }

  lemma ItemsText(vs: seq<Value>)
    ensures CanonicalText(Items(vs)) == Listed(CanonicalTexts(vs))
  {
    hide Listed;
    var js := CanonicalValue(Items(vs)).elements;
    assert seq(|js|, i requires 0 <= i < |js| => Encoding(js[i])) == CanonicalTexts(vs);
  }

  lemma BagText(vs: seq<Value>)
    ensures CanonicalText(Bag(vs)) == Listed(Sorting.Sorted(CanonicalTexts(vs), AtMost))
  {
    hide Listed, AtMost;
    var js := seq(|vs|, i requires 0 <= i < |vs| => CanonicalValue(vs[i]));
    SortEncodes(js);
    EncodingsPointwise(js);
    assert Encodings(js) == CanonicalTexts(vs);
    var sorted := Sorting.Sorted(js, EncodedAtMost);
    assert CanonicalValue(Bag(vs)) == Arr(sorted);
    EncodingsPointwise(sorted);
    assert Encoding(Arr(sorted)) == Listed(Encodings(sorted));
  }

  lemma RecordText(es: seq<Entry>)
    ensures CanonicalText(Record(es)) == Keyed(CanonicalPairs(es))
  {
    hide Keyed;
    var fields := CanonicalValue(Record(es)).fields;
    assert seq(|fields|, i requires 0 <= i < |fields| => Pair(fields[i].name, Encoding(fields[i].value)))
           == CanonicalPairs(es);
  }

  lemma RenderedText(v: Value)
    ensures CanonicalText(Rendered(v)) == CanonicalText(v)
  {
  }

  /** The encoding a digest is taken of does not depend on iteration order, however deep. */
  lemma {:induction false} EncodingIgnoresOrder(v: Value, w: Value)
    requires SameUpToOrder(v, w) && WellFormed(v)
    ensures CanonicalText(v) == CanonicalText(w)
    decreases v
  {
    hide CanonicalText, Keyed, Listed, AtMost;
    match (v, w) {
      case (Plain(a), Plain(b)) =>
      case (Characters(a), Characters(b)) =>
      case (Rendered(a), Rendered(b)) =>
        EncodingIgnoresOrder(a, b);
        RenderedText(a);
        RenderedText(b);
      case (Items(a), Items(b)) =>
        forall i | 0 <= i < |a| ensures CanonicalText(a[i]) == CanonicalText(b[i]) {
          EncodingIgnoresOrder(a[i], b[i]);
        }
        ItemsText(a);
        ItemsText(b);
        assert CanonicalTexts(a) == CanonicalTexts(b);
      case (Bag(a), Bag(b)) =>
        var p :| Permutation(p, |a|) && forall i | 0 <= i < |a| :: SameUpToOrder(a[i], b[p[i]]);
        forall i | 0 <= i < |a| ensures CanonicalTexts(a)[i] == CanonicalTexts(b)[p[i]] {
          EncodingIgnoresOrder(a[i], b[p[i]]);
        }
        PermutedMultiset(CanonicalTexts(a), CanonicalTexts(b), p);
        AtMostIsOrder();
        TextsDoNotTie(CanonicalTexts(a));
        Sorting.SortIgnoresOrder(CanonicalTexts(a), CanonicalTexts(b), AtMost);
        BagText(a);
        BagText(b);
      case (Record(a), Record(b)) =>
        var p :| Permutation(p, |a|) &&
                 forall i | 0 <= i < |a| :: a[i].name == b[p[i]].name && SameUpToOrder(a[i].value, b[p[i]].value);
        forall i | 0 <= i < |a| ensures CanonicalPairs(a)[i] == CanonicalPairs(b)[p[i]] {
          EncodingIgnoresOrder(a[i].value, b[p[i]].value);
        }
        PermutedMultiset(CanonicalPairs(a), CanonicalPairs(b), p);
        NamedIsOrder();
        NamesDoNotTie(CanonicalPairs(a));
        Sorting.SortIgnoresOrder(CanonicalPairs(a), CanonicalPairs(b), NamedAtMost);
        RecordText(a);
        RecordText(b);
        KeyedBySorted(CanonicalPairs(a), CanonicalPairs(b));
    }
  }

  lemma KeyedBySorted(a: seq<Pair>, b: seq<Pair>)
    requires Sorting.Sorted(a, NamedAtMost) == Sorting.Sorted(b, NamedAtMost)
    ensures Keyed(a) == Keyed(b)
  {
  }
}
