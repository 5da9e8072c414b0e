/**
 The canonical encoding can be read back: payloads that differ by more than the order of dictionary entries encode
 differently, so that a changed definition has other digest input.
 */
module CanonicalReading {
  import opened Common
  import Sorting
  import opened Canonical

  // ---------- Payloads ----------

  /** No quote, comma, colon, bracket or brace. */
  predicate BareChar(c: nat) {
    c != 34 && c != 44 && c != 58 && c != 91 && c != 93 && c != 123 && c != 125
  }

  /** How None, booleans and numbers are written. */
  predicate Bare(text: Text) {
    text != [] && forall i | 0 <= i < |text| :: BareChar(text[i])
  }

  /** The scalars of a payload other than strings are bare words, and dictionaries do not repeat a key. */
  predicate Writable(v: Value)
    decreases v
  {
    match v
    case Plain(text) => Bare(text)
    case Characters(_) => true
    case Rendered(value) => Writable(value)
    case Items(a) => forall i | 0 <= i < |a| :: Writable(a[i])
    case Bag(a) => forall i | 0 <= i < |a| :: Writable(a[i])
    case Record(a) =>
      && (forall i | 0 <= i < |a| :: Writable(a[i].value))
      && (forall i, j | 0 <= i < j < |a| :: a[i].name != a[j].name)
  }

  /** The same for a JSON value. */
  predicate Proper(j: Json)
    decreases j
  {
    match j
    case Atom(text) => Bare(text)
    case Str(_) => true
    case Arr(a) => forall i | 0 <= i < |a| :: Proper(a[i])
    case Obj(a) =>
      && (forall i | 0 <= i < |a| :: Proper(a[i].value))
      && (forall i, k | 0 <= i < k < |a| :: a[i].name != a[k].name)
  }

  /** Equal but for the order of the fields, at every depth. */
  ghost predicate Alike(j: Json, k: Json)
    decreases j
  {
    match (j, k)
    case (Atom(a), Atom(b)) => a == b
    case (Str(a), Str(b)) => a == b
    case (Arr(a), Arr(b)) => |a| == |b| && forall i | 0 <= i < |a| :: Alike(a[i], b[i])
    case (Obj(a), Obj(b)) =>
      |a| == |b| && exists p :: Permutation(p, |a|) &&
                                forall i | 0 <= i < |a| :: a[i].name == b[p[i]].name && Alike(a[i].value, b[p[i]].value)
    case _ => false
  }

  lemma {:induction false} CanonicalIsProper(v: Value)
    requires Writable(v)
    ensures Proper(CanonicalValue(v))
    decreases v
  {
    match v {
      case Plain(_) =>
      case Characters(_) =>
      case Rendered(value) => CanonicalIsProper(value);
      case Items(a) =>
        forall i | 0 <= i < |a| ensures Proper(CanonicalValue(a[i])) {
          CanonicalIsProper(a[i]);
        }
      case Bag(a) =>
        forall i | 0 <= i < |a| ensures Proper(CanonicalValue(a[i])) {
          CanonicalIsProper(a[i]);
        }
        BagIsProper(a);
      case Record(a) =>
        forall i | 0 <= i < |a| ensures Proper(CanonicalValue(a[i].value)) {
          CanonicalIsProper(a[i].value);
        }
    }
  }

  lemma EncodedIsOrder()
    ensures Sorting.IsOrder(EncodedAtMost)
  {
    hide Encoding;
    AtMostIsOrder();
  }

  lemma BagIsProper(a: seq<Value>)
    requires forall i | 0 <= i < |a| :: Proper(CanonicalValue(a[i]))
    ensures Proper(CanonicalValue(Bag(a)))
  {
    hide AtMost, Encoding;
    var js := seq(|a|, i requires 0 <= i < |a| => CanonicalValue(a[i]));
    var sorted := Sorting.Sorted(js, EncodedAtMost);
    EncodedIsOrder();
    Sorting.SortedIsOrdered(js, EncodedAtMost);
    forall i | 0 <= i < |sorted| ensures Proper(sorted[i]) {
      assert sorted[i] in multiset(js);
    }
  }

  // ---------- Strings end where they end ----------

  function Codes(s: string): Text {
    seq(|s|, i requires 0 <= i < |s| => s[i] as nat)
  }

  /** The escapes are those of section 7 of RFC 8259, control characters without a short form in hexadecimal. */
  lemma EscapesAreWritten(c: nat)
    ensures EscapedChar('"' as nat) == Codes("\\\"") && EscapedChar('\\' as nat) == Codes("\\\\")
    ensures EscapedChar('\n' as nat) == Codes("\\n") && EscapedChar('\r' as nat) == Codes("\\r")
    ensures EscapedChar('\t' as nat) == Codes("\\t") && EscapedChar(12) == Codes("\\f")
    ensures EscapedChar(8) == Codes("\\b")
    ensures c < 32 && c !in {8, 9, 10, 12, 13} ==>
              EscapedChar(c) == Codes("\\u00" + ["0123456789abcdef"[c / 16]] + ["0123456789abcdef"[c % 16]])
    ensures c >= 32 && c != '"' as nat && c != '\\' as nat ==> EscapedChar(c) == [c]
  {
    var digits := "0123456789abcdef";
    assert forall n: nat | n < 16 :: HexDigit(n) == digits[n] as nat;
  }

  /** What escapes one character is never the beginning of what escapes another. */
  lemma EscapeIsUnique(c: nat, d: nat, s: Text, t: Text)
    requires EscapedChar(c) + s == EscapedChar(d) + t
    ensures c == d && s == t
  {
    var x, y := EscapedChar(c), EscapedChar(d);
    assert (x + s)[0] == x[0] && (y + t)[0] == y[0];
    if x[0] == BACKSLASH {
      assert (x + s)[1] == x[1] && (y + t)[1] == y[1];
      if x[1] == 117 {
        assert (x + s)[4] == x[4] && (y + t)[4] == y[4];
        assert (x + s)[5] == x[5] && (y + t)[5] == y[5];
        assert c == 16 * (c / 16) + c % 16 && d == 16 * (d / 16) + d % 16;
      }
    }
    assert s == (x + s)[|x|..] && t == (y + t)[|y|..];
  }

  /** The closing quote is the first one that is not escaped. */
  lemma EscapedStarts(chars: Text, s: Text)
    ensures (Escaped(chars) + [QUOTE] + s)[0] == QUOTE <==> chars == []
  {
  }

  lemma {:induction false} EscapedIsUnique(a: Text, b: Text, s: Text, t: Text)
    requires Escaped(a) + [QUOTE] + s == Escaped(b) + [QUOTE] + t
    ensures a == b && s == t
    decreases |a|
  {
    hide EscapedChar;
    var l, r := Escaped(a) + [QUOTE] + s, Escaped(b) + [QUOTE] + t;
    EscapedStarts(a, s);
    EscapedStarts(b, t);
    assert a == [] <==> b == [];
    if a == [] {
      assert s == l[1..] && t == r[1..];
    } else {
      var rest, rest' := Escaped(a[1..]) + [QUOTE] + s, Escaped(b[1..]) + [QUOTE] + t;
      assert l == EscapedChar(a[0]) + rest && r == EscapedChar(b[0]) + rest';
      EscapeIsUnique(a[0], b[0], rest, rest');
      EscapedIsUnique(a[1..], b[1..], s, t);
      assert a == [a[0]] + a[1..] && b == [b[0]] + b[1..];
    }
  }

  lemma QuotedIsUnique(a: Text, b: Text, s: Text, t: Text)
    requires Quoted(a) + s == Quoted(b) + t
    ensures a == b && s == t
  {
    hide Escaped;
    var l, r := Quoted(a) + s, Quoted(b) + t;
    assert l[1..] == Escaped(a) + [QUOTE] + s && r[1..] == Escaped(b) + [QUOTE] + t;
    EscapedIsUnique(a, b, s, t);
  }

  // ---------- Lists end where they end ----------

  /** What may follow a value: nothing, a comma or a closing bracket or brace. */
  predicate Delimited(s: Text) {
    s == [] || s[0] == 44 || s[0] == 93 || s[0] == 125
  }

  /** Neither text is the beginning of the other, as far as what may follow goes. */
  ghost predicate Apart(e: Text, f: Text) {
    forall s, t :: Delimited(s) && Delimited(t) && e + s == f + t ==> e == f
  }

  /** A value begins with something that may not follow one. */
  predicate Begins(e: Text) {
    e != [] && e[0] != 44 && e[0] != 93 && e[0] != 125
  }

  ghost predicate AllApart(es: seq<Text>, fs: seq<Text>) {
    && (forall i | 0 <= i < |es| :: Begins(es[i])) && (forall i | 0 <= i < |fs| :: Begins(fs[i]))
    && forall i, k | 0 <= i < |es| && 0 <= k < |fs| :: Apart(es[i], fs[k])
  }

  /** What follows the first text of a list. */
  function Following(es: seq<Text>, close: nat, s: Text): Text
    requires es != []
  {
    if |es| == 1 then [close] + s else [COMMA] + (Joined(es[1..]) + [close] + s)
  }

  lemma FirstOfList(es: seq<Text>, close: nat, s: Text)
    requires es != []
    ensures Joined(es) + [close] + s == es[0] + Following(es, close, s)
  {
  }

  /** Only an empty list begins with its closing bracket. */
  lemma ListStarts(es: seq<Text>, close: nat, s: Text)
    requires (forall i | 0 <= i < |es| :: Begins(es[i])) && (close == 93 || close == 125)
    ensures (Joined(es) + [close] + s)[0] == close ==> es == []
    ensures es == [] ==> (Joined(es) + [close] + s)[0] == close
  {
    if es != [] {
      FirstOfList(es, close, s);
      assert (Joined(es) + [close] + s)[0] == es[0][0];
    }
  }

  /** Two lists of such texts that read alike up to their closing bracket are equal. */
  lemma {:induction false} ListIsUnique(es: seq<Text>, fs: seq<Text>, close: nat, s: Text, t: Text)
    requires AllApart(es, fs) && (close == 93 || close == 125)
    requires Joined(es) + [close] + s == Joined(fs) + [close] + t
    ensures es == fs
    decreases |es|
  {
    var l, r := Joined(es) + [close] + s, Joined(fs) + [close] + t;
    ListStarts(es, close, s);
    ListStarts(fs, close, t);
    assert es == [] <==> fs == [];
    if es != [] {
      FirstOfList(es, close, s);
      FirstOfList(fs, close, t);
      var after, after' := Following(es, close, s), Following(fs, close, t);
      assert Apart(es[0], fs[0]);
      assert es[0] + after == fs[0] + after' ==> es[0] == fs[0];
      assert after == l[|es[0]|..] && after' == r[|fs[0]|..];
      RestsMatch(es, fs, close, s, t);
    }
  }

  lemma {:induction false} RestsMatch(es: seq<Text>, fs: seq<Text>, close: nat, s: Text, t: Text)
    requires es != [] && fs != [] && AllApart(es, fs) && (close == 93 || close == 125)
    requires es[0] == fs[0] && Following(es, close, s) == Following(fs, close, t)
    ensures es == fs
    decreases |es|, 0
  {
    var after, after' := Following(es, close, s), Following(fs, close, t);
    assert after[0] == if |es| == 1 then close else COMMA;
    assert after'[0] == if |fs| == 1 then close else COMMA;
    if |es| > 1 {
      assert after[1..] == Joined(es[1..]) + [close] + s && after'[1..] == Joined(fs[1..]) + [close] + t;
      assert AllApart(es[1..], fs[1..]) by {
        assert forall i | 0 <= i < |es[1..]| :: es[1..][i] == es[i + 1];
        assert forall i | 0 <= i < |fs[1..]| :: fs[1..][i] == fs[i + 1];
      }
      ListIsUnique(es[1..], fs[1..], close, s, t);
    }
    assert es == [es[0]] + es[1..] && fs == [fs[0]] + fs[1..];
  }

  // ---------- Every value ends where it ends ----------

  function Elements(a: seq<Json>): seq<Text> {
    seq(|a|, i requires 0 <= i < |a| => Encoding(a[i]))
  }

  function Pairs(a: seq<Field>): seq<Pair> {
    seq(|a|, i requires 0 <= i < |a| => Pair(a[i].name, Encoding(a[i].value)))
  }

  function SortedPairs(a: seq<Field>): seq<Pair> {
    Sorting.Sorted(Pairs(a), NamedAtMost)
  }

  lemma EncodingStarts(j: Json)
    requires Proper(j)
    ensures Begins(Encoding(j))
    ensures match j
            case Atom(_) => BareChar(Encoding(j)[0])
            case Str(_) => Encoding(j)[0] == 34
            case Arr(_) => Encoding(j)[0] == 91
            case Obj(_) => Encoding(j)[0] == 123
  {
    hide Joined, Escaped, PairTexts, Sorting.Sorted;
  }

  /** How many bare characters a text begins with. */
  function Run(text: Text): nat {
    if text != [] && BareChar(text[0]) then 1 + Run(text[1..]) else 0
  }

  lemma {:induction false} BareRun(a: Text, s: Text)
    requires (forall i | 0 <= i < |a| :: BareChar(a[i])) && Delimited(s)
    ensures Run(a + s) == |a|
  {
    if a == [] {
      assert a + s == s;
    } else {
      BareRun(a[1..], s);
      assert (a + s)[1..] == a[1..] + s;
    }
  }

  lemma AtomsApart(a: Text, b: Text)
    requires Bare(a) && Bare(b)
    ensures Apart(a, b)
  {
    forall s, t | Delimited(s) && Delimited(t) && a + s == b + t ensures a == b {
      BareRun(a, s);
      BareRun(b, t);
      assert a == (a + s)[..|a|] && b == (b + t)[..|b|];
    }
  }

  lemma StringsApart(a: Text, b: Text)
    ensures Apart(Quoted(a), Quoted(b))
  {
    hide Quoted;
    forall s, t | Delimited(s) && Delimited(t) && Quoted(a) + s == Quoted(b) + t ensures Quoted(a) == Quoted(b) {
      QuotedIsUnique(a, b, s, t);
    }
  }

  lemma PairsApart(p: Pair, q: Pair)
    requires Apart(p.text, q.text)
    ensures Apart(PairText(p), PairText(q)) && Begins(PairText(p))
  {
    hide Escaped;
    forall s, t | Delimited(s) && Delimited(t) && PairText(p) + s == PairText(q) + t
      ensures PairText(p) == PairText(q)
    {
      PairIsUnique(p, q, s, t);
      assert p.text + s == q.text + t ==> p.text == q.text;
    }
  }

  lemma PairIsUnique(p: Pair, q: Pair, s: Text, t: Text)
    requires PairText(p) + s == PairText(q) + t
    ensures p.name == q.name && p.text + s == q.text + t
  {
    hide Quoted;
    var l, r := [COLON] + p.text + s, [COLON] + q.text + t;
    assert PairText(p) + s == Quoted(p.name) + l && PairText(q) + t == Quoted(q.name) + r;
    QuotedIsUnique(p.name, q.name, l, r);
    assert p.text + s == l[1..] && q.text + t == r[1..];
  }

  lemma PairTextIsUnique(p: Pair, q: Pair)
    requires PairText(p) == PairText(q)
    ensures p == q
  {
    hide PairText;
    assert PairText(p) + [] == PairText(q) + [];
    PairIsUnique(p, q, [], []);
    assert p.text + [] == p.text && q.text + [] == q.text;
  }

  lemma BracketsApart(es: seq<Text>, fs: seq<Text>, open: nat, close: nat)
    requires AllApart(es, fs) && (close == 93 || close == 125)
    ensures Apart([open] + Joined(es) + [close], [open] + Joined(fs) + [close])
  {
    hide Joined, AllApart;
    var e, f := [open] + Joined(es) + [close], [open] + Joined(fs) + [close];
    forall s, t | Delimited(s) && Delimited(t) && e + s == f + t ensures e == f {
      assert (e + s)[1..] == Joined(es) + [close] + s && (f + t)[1..] == Joined(fs) + [close] + t;
      ListIsUnique(es, fs, close, s, t);
    }
  }

  /** Sorting only rearranges: every sorted pair is that of some field. */
  lemma SortedFrom(a: seq<Field>, i: nat) returns (k: nat)
    requires i < |SortedPairs(a)|
    ensures k < |a| && SortedPairs(a)[i] == Pair(a[k].name, Encoding(a[k].value))
  {
    hide AtMost, Encoding, Sorting.Sorted;
    NamedIsOrder();
    Sorting.SortedIsOrdered(Pairs(a), NamedAtMost);
    assert SortedPairs(a)[i] in multiset(Pairs(a));
    k :| 0 <= k < |Pairs(a)| && Pairs(a)[k] == SortedPairs(a)[i];
  }

  lemma FieldsApart(a: seq<Field>, b: seq<Field>)
    requires forall i, k | 0 <= i < |a| && 0 <= k < |b| :: Apart(Encoding(a[i].value), Encoding(b[k].value))
    ensures AllApart(PairTexts(SortedPairs(a)), PairTexts(SortedPairs(b)))
  {
    hide Encoding, Apart, PairText, SortedPairs, Begins;
    var p, q := SortedPairs(a), SortedPairs(b);
    forall i | 0 <= i < |p| ensures Begins(PairText(p[i])) {
      PairBegins(p[i]);
    }
    forall k | 0 <= k < |q| ensures Begins(PairText(q[k])) {
      PairBegins(q[k]);
    }
    forall i, k | 0 <= i < |p| && 0 <= k < |q| ensures Apart(PairText(p[i]), PairText(q[k])) {
      var x := SortedFrom(a, i);
      var y := SortedFrom(b, k);
      PairsApart(p[i], q[k]);
    }
  }

  lemma PairBegins(p: Pair)
    ensures Begins(PairText(p))
  {
    hide Escaped;
  }

  /** No encoding is the beginning of another, as far as what may follow goes. */
  lemma {:induction false} EncodingsApart(j: Json, k: Json)
    requires Proper(j) && Proper(k)
    ensures Apart(Encoding(j), Encoding(k))
    decreases j
  {
    EncodingStarts(j);
    EncodingStarts(k);
    match (j, k) {
      case (Atom(a), Atom(b)) => AtomsApart(a, b);
      case (Str(a), Str(b)) => StringsApart(a, b);
      case (Arr(a), Arr(b)) =>
        forall i, l | 0 <= i < |a| && 0 <= l < |b| ensures Apart(Encoding(a[i]), Encoding(b[l])) {
          EncodingsApart(a[i], b[l]);
        }
        ElementsApart(a, b);
      case (Obj(a), Obj(b)) =>
        forall i, l | 0 <= i < |a| && 0 <= l < |b| ensures Apart(Encoding(a[i].value), Encoding(b[l].value)) {
          EncodingsApart(a[i].value, b[l].value);
        }
        FieldsApart(a, b);
        BracketsApart(PairTexts(SortedPairs(a)), PairTexts(SortedPairs(b)), 123, 125);
      case _ => StartsApart(Encoding(j), Encoding(k));
    }
  }

  lemma StartsApart(e: Text, f: Text)
    requires e != [] && f != [] && e[0] != f[0]
    ensures Apart(e, f)
  {
    assert forall s: Text :: (e + s)[0] == e[0];
    assert forall t: Text :: (f + t)[0] == f[0];
  }

  lemma ElementsApart(a: seq<Json>, b: seq<Json>)
    requires (forall i | 0 <= i < |a| :: Proper(a[i])) && (forall i | 0 <= i < |b| :: Proper(b[i]))
    requires forall i, l | 0 <= i < |a| && 0 <= l < |b| :: Apart(Encoding(a[i]), Encoding(b[l]))
    ensures AllApart(Elements(a), Elements(b)) && Apart(Encoding(Arr(a)), Encoding(Arr(b)))
  {
    hide Apart, Joined, Begins;
    forall i | 0 <= i < |a| ensures Begins(Encoding(a[i])) {
      EncodingStarts(a[i]);
    }
    forall i | 0 <= i < |b| ensures Begins(Encoding(b[i])) {
      EncodingStarts(b[i]);
    }
    BracketsApart(Elements(a), Elements(b), 91, 93);
  }

  // ---------- Reading an encoding back ----------

  /** One element of `a` is somewhere in `b`, and what is left has the same elements again. */
  lemma SplitOff<T>(a: seq<T>, b: seq<T>) returns (k: nat)
    requires a != [] && multiset(a) == multiset(b)
    ensures k < |b| && b[k] == a[|a| - 1] && multiset(a[..|a| - 1]) == multiset(Without(b, k))
  {
    var last := |a| - 1;
    assert a == a[..last] + [a[last]] && a[last] in multiset(b);
    k :| 0 <= k < |b| && b[k] == a[last];
    WithoutOne(b, k);
    WithoutOne(a, last);
    assert Without(a, last) == a[..last];
  }

  lemma WithoutOne<T>(s: seq<T>, k: nat)
    requires k < |s|
    ensures multiset(Without(s, k)) == multiset(s) - multiset{s[k]}
  {
    assert s == s[..k] + [s[k]] + s[k + 1..];
  }

  /** A permutation of the rest, with `k` put in for the last position. */
  function PutLast(q: seq<nat>, k: nat): seq<nat> {
    seq(|q|, i requires 0 <= i < |q| => if q[i] < k then q[i] else q[i] + 1) + [k]
  }

  lemma PutLastPermutes(q: seq<nat>, k: nat)
    requires Permutation(q, |q|) && k <= |q|
    ensures Permutation(PutLast(q, k), |q| + 1)
  {
  }

  lemma PutLastMatches<T>(a: seq<T>, b: seq<T>, q: seq<nat>, k: nat)
    requires |a| == |b| == |q| + 1 && k < |b| && b[k] == a[|q|] && forall i | 0 <= i < |q| :: q[i] < |q|
    requires forall i | 0 <= i < |q| :: a[i] == Without(b, k)[q[i]]
    ensures forall i | 0 <= i < |a| :: PutLast(q, k)[i] < |b| && a[i] == b[PutLast(q, k)[i]]
  {
  }

  /** Lists with the same elements, repeated as often, match up. */
  lemma {:induction false} Matched<T>(a: seq<T>, b: seq<T>) returns (p: seq<nat>)
    requires multiset(a) == multiset(b)
    ensures |a| == |b| && Permutation(p, |a|) && forall i | 0 <= i < |a| :: a[i] == b[p[i]]
    decreases |a|
  {
    assert |a| == |multiset(a)| == |b|;
    if a == [] {
      p := [];
    } else {
      var last := |a| - 1;
      var k := SplitOff(a, b);
      var q := Matched(a[..last], Without(b, k));
      assert forall i | 0 <= i < last :: a[i] == a[..last][i];
      PutLastPermutes(q, k);
      PutLastMatches(a, b, q, k);
      p := PutLast(q, k);
    }
  }

  lemma {:induction false} PairTextsAreUnique(p: seq<Pair>, q: seq<Pair>)
    requires PairTexts(p) == PairTexts(q)
    ensures p == q
  {
    hide PairText;
    assert |p| == |PairTexts(p)| == |q|;
    forall i | 0 <= i < |p| ensures p[i] == q[i] {
      assert PairTexts(p)[i] == PairTexts(q)[i];
      PairTextIsUnique(p[i], q[i]);
    }
  }

  /** Objects that encode alike have the same fields, matched up by `p`. */
  lemma FieldsMatch(a: seq<Field>, b: seq<Field>) returns (p: seq<nat>)
    requires Proper(Obj(a)) && Proper(Obj(b)) && Encoding(Obj(a)) == Encoding(Obj(b))
    ensures |a| == |b| && Permutation(p, |a|)
    ensures forall i | 0 <= i < |a| ::
              a[i].name == b[p[i]].name && Encoding(a[i].value) == Encoding(b[p[i]].value)
  {
    hide AtMost, Joined, Sorting.Sorted, AllApart, PairTexts;
    forall i, l | 0 <= i < |a| && 0 <= l < |b| ensures Apart(Encoding(a[i].value), Encoding(b[l].value)) {
      EncodingsApart(a[i].value, b[l].value);
    }
    FieldsApart(a, b);
    var x, y := SortedPairs(a), SortedPairs(b);
    ObjectText(a);
    ObjectText(b);
    assert Encoding(Obj(a))[1..] == Joined(PairTexts(x)) + [125] + []
           && Encoding(Obj(b))[1..] == Joined(PairTexts(y)) + [125] + [];
    ListIsUnique(PairTexts(x), PairTexts(y), 125, [], []);
    PairTextsAreUnique(x, y);
    NamedIsOrder();
    Sorting.SortedIsOrdered(Pairs(a), NamedAtMost);
    Sorting.SortedIsOrdered(Pairs(b), NamedAtMost);
    p := Matched(Pairs(a), Pairs(b));
    forall i | 0 <= i < |a|
      ensures a[i].name == b[p[i]].name && Encoding(a[i].value) == Encoding(b[p[i]].value)
    {
      assert Pairs(a)[i] == Pairs(b)[p[i]];
    }
  }

  lemma ObjectText(a: seq<Field>)
    ensures Encoding(Obj(a)) == [123] + Joined(PairTexts(SortedPairs(a))) + [125]
  {
    hide Joined, PairTexts, Sorting.Sorted;
    assert seq(|a|, i requires 0 <= i < |a| => Pair(a[i].name, Encoding(a[i].value))) == Pairs(a);
  }

  /** Arrays that encode alike have elements that do. */
  lemma ElementsMatch(a: seq<Json>, b: seq<Json>)
    requires Proper(Arr(a)) && Proper(Arr(b)) && Encoding(Arr(a)) == Encoding(Arr(b))
    ensures |a| == |b| && forall i | 0 <= i < |a| :: Encoding(a[i]) == Encoding(b[i])
  {
    hide Joined, AllApart;
    forall i, l | 0 <= i < |a| && 0 <= l < |b| ensures Apart(Encoding(a[i]), Encoding(b[l])) {
      EncodingsApart(a[i], b[l]);
    }
    ElementsApart(a, b);
    assert Encoding(Arr(a))[1..] == Joined(Elements(a)) + [93] + []
           && Encoding(Arr(b))[1..] == Joined(Elements(b)) + [93] + [];
    ListIsUnique(Elements(a), Elements(b), 93, [], []);
    assert |Elements(a)| == |Elements(b)|;
    forall i | 0 <= i < |a| ensures Encoding(a[i]) == Encoding(b[i]) {
      assert Elements(a)[i] == Elements(b)[i];
    }
  }

  /** Values that encode alike are equal but for the order of their fields. */
  lemma {:induction false} EncodingReadsBack(j: Json, k: Json)
    requires Proper(j) && Proper(k) && Encoding(j) == Encoding(k)
    ensures Alike(j, k)
    decreases j
  {
    hide Encoding;
    EncodingStarts(j);
    EncodingStarts(k);
    match (j, k) {
      case (Atom(a), Atom(b)) => AtomText(a, b);
      case (Str(a), Str(b)) => StringText(a, b);
      case (Arr(a), Arr(b)) =>
        ElementsMatch(a, b);
        forall i | 0 <= i < |a| ensures Alike(a[i], b[i]) {
          EncodingReadsBack(a[i], b[i]);
        }
      case (Obj(a), Obj(b)) =>
        var p := FieldsMatch(a, b);
        forall i | 0 <= i < |a| ensures a[i].name == b[p[i]].name && Alike(a[i].value, b[p[i]].value) {
          EncodingReadsBack(a[i].value, b[p[i]].value);
        }
      case _ =>
    }
  }

  lemma AtomText(a: Text, b: Text)
    ensures Encoding(Atom(a)) == a && Encoding(Atom(b)) == b
  {
  }

  lemma StringText(a: Text, b: Text)
    ensures Encoding(Str(a)) == Encoding(Str(b)) ==> a == b
  {
    hide Quoted;
    if Encoding(Str(a)) == Encoding(Str(b)) {
      assert Quoted(a) + [] == Quoted(b) + [];
      QuotedIsUnique(a, b, [], []);
    }
  }

  // ---------- Both directions ----------

  lemma {:induction false} AlikeIsSame(j: Json, k: Json)
    requires Alike(j, k)
    ensures SameUpToOrder(AsValue(j), AsValue(k))
    decreases j
  {
    match (j, k) {
      case (Atom(a), Atom(b)) =>
      case (Str(a), Str(b)) =>
      case (Arr(a), Arr(b)) =>
        forall i | 0 <= i < |a| ensures SameUpToOrder(AsValue(a[i]), AsValue(b[i])) {
          AlikeIsSame(a[i], b[i]);
        }
      case (Obj(a), Obj(b)) =>
        var p :| Permutation(p, |a|) &&
                 forall i | 0 <= i < |a| :: a[i].name == b[p[i]].name && Alike(a[i].value, b[p[i]].value);
        forall i | 0 <= i < |a| ensures SameUpToOrder(AsValue(a[i].value), AsValue(b[p[i]].value)) {
          AlikeIsSame(a[i].value, b[p[i]].value);
        }
        var x, y := AsValue(j).entries, AsValue(k).entries;
        assert forall i | 0 <= i < |x| :: x[i].name == y[p[i]].name && SameUpToOrder(x[i].value, y[p[i]].value);
    }
  }

  lemma {:induction false} ProperIsWellFormed(j: Json)
    requires Proper(j)
    ensures WellFormed(AsValue(j))
    decreases j
  {
    match j {
      case Atom(_) =>
      case Str(_) =>
      case Arr(a) =>
        forall i | 0 <= i < |a| ensures WellFormed(AsValue(a[i])) {
          ProperIsWellFormed(a[i]);
        }
      case Obj(a) =>
        forall i | 0 <= i < |a| ensures WellFormed(AsValue(a[i].value)) {
          ProperIsWellFormed(a[i].value);
        }
    }
  }

  /**
   What a digest is taken of distinguishes payloads exactly as far as it should: two payloads encode alike if and only
   if their canonical values are equal but for the order of dictionary entries.
   */
  lemma EncodingDecides(v: Value, w: Value)
    requires Writable(v) && Writable(w)
    ensures CanonicalText(v) == CanonicalText(w) <==> Alike(CanonicalValue(v), CanonicalValue(w))
  {
    hide Encoding, CanonicalValue, AsValue, Alike;
    var j, k := CanonicalValue(v), CanonicalValue(w);
    CanonicalIsProper(v);
    CanonicalIsProper(w);
    if CanonicalText(v) == CanonicalText(w) {
      EncodingReadsBack(j, k);
    }
    if Alike(j, k) {
      AlikeIsSame(j, k);
      ProperIsWellFormed(j);
      EncodingIgnoresOrder(AsValue(j), AsValue(k));
      CanonicalIsIdempotent(j);
      CanonicalIsIdempotent(k);
    }
  }

  // ---------- The payloads themselves ----------

  /**
   Equal but for the order of dictionary entries and set elements, at every depth; a value that is rendered counts as
   what it stands for, and a set as a list of its elements in some order.
   */
  ghost predicate SameContent(v: Value, w: Value)
    decreases v, w
  {
    if v.Rendered? then SameContent(v.value, w)
    else if w.Rendered? then SameContent(v, w.value)
    else if v.Plain? then w == v
    else if v.Characters? then w == v
    else if v.Record? then w.Record? && SameEntries(v, w)
    else
      && (w.Items? || w.Bag?)
      && if v.Items? && w.Items? then SameItems(v, w) else SameElements(v, w)
  }

  ghost predicate SameItems(v: Value, w: Value)
    requires v.Items? && w.Items?
    decreases v, w, 0
  {
    |v.items| == |w.items| && forall i | 0 <= i < |v.items| :: SameContent(v.items[i], w.items[i])
  }

  ghost predicate SameElements(v: Value, w: Value)
    requires (v.Items? || v.Bag?) && (w.Items? || w.Bag?)
    decreases v, w, 0
  {
    |v.items| == |w.items|
    && exists p :: Permutation(p, |v.items|) &&
                   forall i | 0 <= i < |v.items| :: SameContent(v.items[i], w.items[p[i]])
  }

  ghost predicate SameEntries(v: Value, w: Value)
    requires v.Record? && w.Record?
    decreases v, w, 0
  {
    |v.entries| == |w.entries|
    && exists p :: Permutation(p, |v.entries|) &&
                   forall i | 0 <= i < |v.entries| :: v.entries[i].name == w.entries[p[i]].name
                                                      && SameContent(v.entries[i].value, w.entries[p[i]].value)
  }

  /** The texts of a list or set, in the order in which they are written. */
  function Written(v: Value): seq<Text>
    requires v.Items? || v.Bag?
  {
    if v.Items? then CanonicalTexts(v.items) else Sorting.Sorted(CanonicalTexts(v.items), AtMost)
  }

  lemma WrittenKeeps(v: Value)
    requires v.Items? || v.Bag?
    ensures multiset(Written(v)) == multiset(CanonicalTexts(v.items))
    ensures CanonicalText(v) == [91] + Joined(Written(v)) + [93]
  {
    hide Joined, CanonicalText, Sorting.Sorted, AtMost;
    AtMostIsOrder();
    Sorting.SortedIsOrdered(CanonicalTexts(v.items), AtMost);
    if v.Items? {
      ItemsText(v.items);
    } else {
      BagText(v.items);
    }
  }

  lemma WrittenApart(v: Value, w: Value)
    requires (v.Items? || v.Bag?) && (w.Items? || w.Bag?) && Writable(v) && Writable(w)
    ensures AllApart(Written(v), Written(w))
  {
    hide CanonicalText, Written, Writable, Apart, Begins;
    forall i | 0 <= i < |Written(v)| ensures Begins(Written(v)[i]) {
      var a := WrittenFrom(v, i);
    }
    forall k | 0 <= k < |Written(w)| ensures Begins(Written(w)[k]) {
      var b := WrittenFrom(w, k);
    }
    forall i, k | 0 <= i < |Written(v)| && 0 <= k < |Written(w)| ensures Apart(Written(v)[i], Written(w)[k]) {
      var a := WrittenFrom(v, i);
      var b := WrittenFrom(w, k);
      EncodingsApart(a, b);
    }
  }

  lemma WrittenFrom(v: Value, i: nat) returns (j: Json)
    requires (v.Items? || v.Bag?) && Writable(v) && i < |Written(v)|
    ensures Proper(j) && Written(v)[i] == Encoding(j) && Begins(Written(v)[i])
  {
    hide Written, Encoding, Begins, CanonicalValue, Proper;
    WrittenKeeps(v);
    var texts := CanonicalTexts(v.items);
    assert Written(v)[i] in multiset(texts);
    var k :| 0 <= k < |texts| && texts[k] == Written(v)[i];
    j := CanonicalValue(v.items[k]);
    CanonicalIsProper(v.items[k]);
    EncodingStarts(j);
  }

  /** Lists and sets that encode alike have elements that do, in some order; two lists in the same order. */
  lemma ListsMatch(v: Value, w: Value) returns (p: seq<nat>)
    requires (v.Items? || v.Bag?) && (w.Items? || w.Bag?) && Writable(v) && Writable(w)
    requires CanonicalText(v) == CanonicalText(w)
    ensures |v.items| == |w.items| && Permutation(p, |v.items|)
    ensures forall i | 0 <= i < |v.items| :: CanonicalText(v.items[i]) == CanonicalText(w.items[p[i]])
    ensures v.Items? && w.Items? ==>
              forall i | 0 <= i < |v.items| :: CanonicalText(v.items[i]) == CanonicalText(w.items[i])
  {
    hide CanonicalText, Joined, AllApart, AtMost, Sorting.Sorted, Writable;
    WrittenKeeps(v);
    WrittenKeeps(w);
    WrittenApart(v, w);
    assert CanonicalText(v)[1..] == Joined(Written(v)) + [93] + []
           && CanonicalText(w)[1..] == Joined(Written(w)) + [93] + [];
    ListIsUnique(Written(v), Written(w), 93, [], []);
    p := Matched(CanonicalTexts(v.items), CanonicalTexts(w.items));
    forall i | 0 <= i < |v.items| ensures CanonicalText(v.items[i]) == CanonicalText(w.items[p[i]]) {
      assert CanonicalTexts(v.items)[i] == CanonicalTexts(w.items)[p[i]];
    }
    if v.Items? && w.Items? {
      forall i | 0 <= i < |v.items| ensures CanonicalText(v.items[i]) == CanonicalText(w.items[i]) {
        assert CanonicalTexts(v.items)[i] == CanonicalTexts(w.items)[i];
      }
    }
  }

  lemma RecordsMatch(a: seq<Entry>, b: seq<Entry>) returns (p: seq<nat>)
    requires Writable(Record(a)) && Writable(Record(b)) && CanonicalText(Record(a)) == CanonicalText(Record(b))
    ensures |a| == |b| && Permutation(p, |a|)
    ensures forall i | 0 <= i < |a| ::
              a[i].name == b[p[i]].name && CanonicalText(a[i].value) == CanonicalText(b[p[i]].value)
  {
    hide Encoding, Proper, Writable;
    CanonicalIsProper(Record(a));
    CanonicalIsProper(Record(b));
    var x, y := CanonicalValue(Record(a)).fields, CanonicalValue(Record(b)).fields;
    p := FieldsMatch(x, y);
    forall i | 0 <= i < |a|
      ensures a[i].name == b[p[i]].name && CanonicalText(a[i].value) == CanonicalText(b[p[i]].value)
    {
      assert x[i].name == y[p[i]].name;
    }
  }

  lemma ScalarTexts(v: Value)
    ensures v.Plain? ==> CanonicalText(v) == v.text
    ensures v.Characters? ==> CanonicalText(v) == Encoding(Str(v.chars))
  {
  }

  /** What the first character of an encoding says about the payload. */
  lemma TextStarts(v: Value)
    requires Writable(v)
    ensures CanonicalText(v) != []
    ensures match v
            case Plain(_) => BareChar(CanonicalText(v)[0])
            case Characters(_) => CanonicalText(v)[0] == 34
            case Rendered(_) => true
            case Items(_) => CanonicalText(v)[0] == 91
            case Bag(_) => CanonicalText(v)[0] == 91
            case Record(_) => CanonicalText(v)[0] == 123
  {
    hide Encoding, Proper, Writable;
    CanonicalIsProper(v);
    EncodingStarts(CanonicalValue(v));
  }

  /** Payloads that encode alike have the same content: a change of content is a change of encoding. */
  lemma {:induction false} EncodingKeepsContent(v: Value, w: Value)
    requires Writable(v) && Writable(w) && CanonicalText(v) == CanonicalText(w)
    ensures SameContent(v, w)
    decreases v, w
  {
    hide CanonicalText, Encoding;
    TextStarts(v);
    TextStarts(w);
    ScalarTexts(v);
    ScalarTexts(w);
    if v.Rendered? {
      RenderedText(v.value);
      EncodingKeepsContent(v.value, w);
    } else if w.Rendered? {
      RenderedText(w.value);
      EncodingKeepsContent(v, w.value);
    } else if v.Characters? {
      StringText(v.chars, w.chars);
    } else if v.Record? {
      var p := RecordsMatch(v.entries, w.entries);
      forall i | 0 <= i < |v.entries|
        ensures v.entries[i].name == w.entries[p[i]].name && SameContent(v.entries[i].value, w.entries[p[i]].value)
      {
        EncodingKeepsContent(v.entries[i].value, w.entries[p[i]].value);
      }
    } else if v.Items? || v.Bag? {
      var p := ListsMatch(v, w);
      if v.Items? && w.Items? {
        forall i | 0 <= i < |v.items| ensures SameContent(v.items[i], w.items[i]) {
          EncodingKeepsContent(v.items[i], w.items[i]);
        }
      } else {
        forall i | 0 <= i < |v.items| ensures SameContent(v.items[i], w.items[p[i]]) {
          EncodingKeepsContent(v.items[i], w.items[p[i]]);
        }
      }
    }
  }
}
