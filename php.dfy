/** The part of PHP's value model that the resolver depends on: configuration
    arrays (ordered maps with integer or string keys), the `empty()` test,
    scalar-to-string coercion, loose comparison, `explode`/`implode`,
    `str_replace` and `array_merge`. */
module Php {

  datatype Option<T> = None | Some(value: T)

  /** An array key. PHP stores a string that reads as a canonical decimal
      integer under the integer key. */
  datatype Key = IntKey(i: int) | StrKey(s: string)

  /** A PHP value. Integers and floats are not modelled; `Obj` is an object of
      the host store, named by its record id. */
  datatype Value =
    | Null
    | Bool(b: bool)
    | Str(s: string)
    | Arr(entries: seq<Entry>)
    | Obj(id: nat)

  /** One key/value pair of an array, in insertion order. */
  datatype Entry = Entry(key: Key, val: Value)

  /** `empty($s)` for a string. */
  predicate EmptyString(s: string) {
    s == "" || s == "0"
  }

  /** `empty($v)`; its negation is PHP's conversion to bool. */
  predicate IsEmpty(v: Value) {
    match v
    case Null => true
    case Bool(b) => !b
    case Str(s) => EmptyString(s)
    case Arr(es) => es == []
    case Obj(_) => false
  }

  /** The string a `?string` parameter or return value receives in PHP's
      coercive typing mode. `None` is null, and also stands for an array or an
      object, which PHP rejects with a TypeError. */
  function AsString(v: Value): Option<string> {
    match v
    case Null => None
    case Bool(b) => Some(if b then "1" else "")
    case Str(s) => Some(s)
    case _ => None
  }

  /** `$v == $s` (loose comparison) for a string `$s`. Numeric strings, which
      PHP compares as numbers, are compared as text here. */
  predicate LooseEquals(v: Value, s: string) {
    match v
    case Str(t) => t == s
    case Bool(b) => b == !EmptyString(s)
    case Null => s == ""
    case _ => false
  }

  predicate IsDigit(ch: char) {
    '0' <= ch <= '9'
  }

  /** A string PHP reads as a non-negative integer key: "0", or digits without
      a leading zero. */
  predicate IsCanonicalNat(s: string) {
    s == "0" || (|s| >= 1 && '1' <= s[0] <= '9' && forall i | 0 <= i < |s| :: IsDigit(s[i]))
  }

  function DigitsValue(s: string): nat
    requires forall i | 0 <= i < |s| :: IsDigit(s[i])
  {
    if s == [] then 0
    else
      assert IsDigit(s[|s| - 1]);
      DigitsValue(s[..|s| - 1]) * 10 + (s[|s| - 1] as int - '0' as int)
  }

  /** The key `$a[$s]` addresses: a canonical decimal string, with or without
      a minus sign (but not `-0`), addresses an integer key; any other string
      addresses itself. Integer range limits are not modelled. */
  function NormKey(s: string): (k: Key)
    ensures k.StrKey? ==> k.s == s
  {
    if IsCanonicalNat(s) then IntKey(DigitsValue(s))
    else if |s| >= 2 && s[0] == '-' && s[1..] != "0" && IsCanonicalNat(s[1..]) then IntKey(-(DigitsValue(s[1..]) as int))
    else StrKey(s)
  }

  /** Which strings address integer keys, and which integer each addresses. */
  lemma NormKeyIntegers(s: string)
    ensures IsCanonicalNat(s) ==> NormKey(s) == IntKey(DigitsValue(s))
    ensures |s| >= 2 && s[0] == '-' && s[1..] != "0" && IsCanonicalNat(s[1..]) ==> NormKey(s) == IntKey(-(DigitsValue(s[1..]) as int))
    ensures NormKey(s).IntKey? <==> IsCanonicalNat(s) || (|s| >= 2 && s[0] == '-' && s[1..] != "0" && IsCanonicalNat(s[1..]))
  {
  }

  function Keys(es: seq<Entry>): seq<Key> {
    seq(|es|, i requires 0 <= i < |es| => es[i].key)
  }

  /** Arrays as PHP builds them: no key occurs twice. */
  predicate UniqueKeys(es: seq<Entry>) {
    forall i, j | 0 <= i < j < |es| :: es[i].key != es[j].key
  }

  /** The value stored under `k`, if any. */
  function Find(es: seq<Entry>, k: Key): (r: Option<Value>)
    ensures r.None? <==> forall i | 0 <= i < |es| :: es[i].key != k
  {
    if es == [] then None
    else if es[0].key == k then Some(es[0].val)
    else Find(es[1..], k)
  }

  /** `$a[$k] ?? null`. */
  function Get(es: seq<Entry>, k: Key): Value {
    match Find(es, k)
    case Some(v) => v
    case None => Null
  }

  /** `$a[$k] = $v`: overwrites the entry in place, or appends a new one. */
  function Put(es: seq<Entry>, k: Key, v: Value): (r: seq<Entry>)
    ensures Find(r, k) == Some(v)
    ensures forall k' | k' != k :: Find(r, k') == Find(es, k')
  {
    if es == [] then [Entry(k, v)]
    else if es[0].key == k then [Entry(k, v)] + es[1..]
    else [es[0]] + Put(es[1..], k, v)
  }

  /** The values of an array in order, as `foreach` visits them. */
  function Values(es: seq<Entry>): seq<Value> {
    seq(|es|, i requires 0 <= i < |es| => es[i].val)
  }

  /** `reset($a)`: the first value, or false for an empty array. */
  function Reset(es: seq<Entry>): Value {
    if es == [] then Bool(false) else es[0].val
  }

  /** A list of strings as a PHP array with keys 0, 1, ... */
  function ListOf(parts: seq<string>): seq<Entry> {
    seq(|parts|, i requires 0 <= i < |parts| => Entry(IntKey(i), Str(parts[i])))
  }

  // ---------------------------------------------------------------------
  // explode / implode with a one-character delimiter

  /** `explode($d, $s)`: the pieces between delimiters, in order. */
  function Split(s: string, d: char): (parts: seq<string>)
    ensures |parts| >= 1
    ensures forall p | p in parts :: d !in p
  {
    if s == [] then [[]]
    else
      var rest := Split(s[1..], d);
      if s[0] == d then [[]] + rest
      else [[s[0]] + rest[0]] + rest[1..]
  }

  /** `implode($d, $parts)`. */
  function Join(parts: seq<string>, d: char): string
    requires |parts| >= 1
  {
    if |parts| == 1 then parts[0] else parts[0] + [d] + Join(parts[1..], d)
  }

  lemma JoinExtendsHead(x: string, parts: seq<string>, d: char)
    requires |parts| >= 1
    ensures Join([x + parts[0]] + parts[1..], d) == x + Join(parts, d)
  {
    var q := [x + parts[0]] + parts[1..];
    if |parts| > 1 {
      assert q[1..] == parts[1..];
    }
  }

  /** Joining the pieces of `explode` gives back the string. */
  lemma {:induction false} JoinSplit(s: string, d: char)
    ensures Join(Split(s, d), d) == s
  {
    if s != [] {
      JoinSplit(s[1..], d);
      var rest := Split(s[1..], d);
      if s[0] == d {
        assert Split(s, d)[1..] == rest;
      } else {
        JoinExtendsHead([s[0]], rest, d);
      }
    }
  }

  lemma {:induction false} SplitPlain(x: string, d: char)
    requires d !in x
    ensures Split(x, d) == [x]
  {
    if x != [] {
      SplitPlain(x[1..], d);
      assert x == [x[0]] + x[1..];
    }
  }

  lemma {:induction false} SplitAfterPlain(x: string, t: string, d: char)
    requires d !in x
    ensures Split(x + [d] + t, d) == [x] + Split(t, d)
  {
    var s := x + [d] + t;
    if x == [] {
      assert s[1..] == t;
    } else {
      assert s[0] == x[0] && s[1..] == x[1..] + [d] + t;
      SplitAfterPlain(x[1..], t, d);
      assert x == [x[0]] + x[1..];
    }
  }

  /** Splitting a join of delimiter-free pieces gives back the pieces. */
  lemma {:induction false} SplitJoin(parts: seq<string>, d: char)
    requires |parts| >= 1
    requires forall p | p in parts :: d !in p
    ensures Split(Join(parts, d), d) == parts
  {
    if |parts| == 1 {
      SplitPlain(parts[0], d);
    } else {
      SplitJoin(parts[1..], d);
      SplitAfterPlain(parts[0], Join(parts[1..], d), d);
    }
  }

  // ---------------------------------------------------------------------
  // str_replace

  /** `str_replace($pat, $rep, $s)`: every occurrence of `pat`, found left to
      right without overlap, replaced by `rep`. */
  function ReplaceAll(s: string, pat: string, rep: string): string
    requires pat != []
    decreases |s|
  {
    if |s| < |pat| then s
    else if s[..|pat|] == pat then rep + ReplaceAll(s[|pat|..], pat, rep)
    else [s[0]] + ReplaceAll(s[1..], pat, rep)
  }

  /** Text before which no occurrence of `pat` can start is copied unchanged. */
  lemma {:induction false} ReplaceSkips(x: string, t: string, pat: string, rep: string)
    requires pat != [] && pat[0] !in x
    ensures ReplaceAll(x + t, pat, rep) == x + ReplaceAll(t, pat, rep)
  {
    if x != [] {
      var s := x + t;
      assert s[1..] == x[1..] + t;
      ReplaceSkips(x[1..], t, pat, rep);
      if |s| >= |pat| {
        assert s[..|pat|][0] == x[0];
        assert ReplaceAll(s, pat, rep) == [x[0]] + ReplaceAll(x[1..] + t, pat, rep);
        assert x == [x[0]] + x[1..];
      } else {
        assert ReplaceAll(t, pat, rep) == t;
      }
    } else {
      assert x + t == t;
    }
  }

  lemma ReplaceLeading(t: string, pat: string, rep: string)
    requires pat != []
    ensures ReplaceAll(pat + t, pat, rep) == rep + ReplaceAll(t, pat, rep)
  {
    var s := pat + t;
    assert s[..|pat|] == pat && s[|pat|..] == t;
  }

  /** The scalar text `str_replace` works on when given a non-string scalar. */
  function ScalarText(v: Value): string {
    match v
    case Str(s) => s
    case Bool(b) => if b then "1" else ""
    case _ => ""
  }

  // ---------------------------------------------------------------------
  // array_merge

  /** The values of the integer-keyed entries, in order: what `array_merge`
      renumbers from 0. */
  function IntValues(es: seq<Entry>): seq<Value> {
    if es == [] then []
    else IntValues(es[..|es| - 1]) + (if es[|es| - 1].key.IntKey? then [es[|es| - 1].val] else [])
  }

  /** One step of `array_merge`: an integer-keyed entry is renumbered and
      appended, a string-keyed entry overwrites or is appended. */
  function MergeEntry(acc: seq<Entry>, e: Entry): seq<Entry> {
    if e.key.IntKey? then acc + [Entry(IntKey(|IntValues(acc)|), e.val)]
    else Put(acc, e.key, e.val)
  }

  function MergeAll(acc: seq<Entry>, es: seq<Entry>): seq<Entry>
    decreases |es|
  {
    if es == [] then acc else MergeAll(MergeEntry(acc, es[0]), es[1..])
  }

  /** `array_merge($a, $b)`. */
  function ArrayMerge(a: seq<Entry>, b: seq<Entry>): seq<Entry> {
    MergeAll(MergeAll([], a), b)
  }

  lemma {:induction false} IntValuesConcat(a: seq<Entry>, b: seq<Entry>)
    ensures IntValues(a + b) == IntValues(a) + IntValues(b)
    decreases |b|
  {
    if b != [] {
      var b' := b[..|b| - 1];
      assert (a + b)[..|a + b| - 1] == a + b';
      IntValuesConcat(a, b');
    } else {
      assert a + b == a;
    }
  }

  lemma {:induction false} PutKeepsIntValues(es: seq<Entry>, k: string, v: Value)
    ensures IntValues(Put(es, StrKey(k), v)) == IntValues(es)
  {
    if es == [] {
      assert IntValues([Entry(StrKey(k), v)]) == IntValues([]) + [];
    } else if es[0].key == StrKey(k) {
      IntValuesConcat([Entry(StrKey(k), v)], es[1..]);
      IntValuesConcat([es[0]], es[1..]);
      assert [Entry(StrKey(k), v)][..0] == [];
      assert [es[0]][..0] == [];
      assert es == [es[0]] + es[1..];
    } else {
      PutKeepsIntValues(es[1..], k, v);
      IntValuesConcat([es[0]], Put(es[1..], StrKey(k), v));
      IntValuesConcat([es[0]], es[1..]);
      assert es == [es[0]] + es[1..];
    }
  }

  lemma MergeEntryIntValues(acc: seq<Entry>, e: Entry)
    ensures IntValues(MergeEntry(acc, e)) == IntValues(acc) + IntValues([e])
  {
    assert [e][..0] == [];
    if e.key.IntKey? {
      var n := Entry(IntKey(|IntValues(acc)|), e.val);
      assert (acc + [n])[..|acc + [n]| - 1] == acc;
    } else {
      PutKeepsIntValues(acc, e.key.s, e.val);
    }
  }

  lemma {:induction false} MergeAllIntValues(acc: seq<Entry>, es: seq<Entry>)
    ensures IntValues(MergeAll(acc, es)) == IntValues(acc) + IntValues(es)
    decreases |es|
  {
    if es != [] {
      MergeEntryIntValues(acc, es[0]);
      MergeAllIntValues(MergeEntry(acc, es[0]), es[1..]);
      IntValuesConcat([es[0]], es[1..]);
      assert es == [es[0]] + es[1..];
    }
  }

  /** `array_merge` keeps the list entries of both arrays, first those of `a`
      and then those of `b`, renumbered. */
  lemma ArrayMergeLists(a: seq<Entry>, b: seq<Entry>)
    ensures IntValues(ArrayMerge(a, b)) == IntValues(a) + IntValues(b)
  {
    var left := MergeAll([], a);
    MergeAllIntValues([], a);
    assert IntValues(left) == IntValues(a);
    MergeAllIntValues(left, b);
  }

  lemma FindAfterAppend(acc: seq<Entry>, e: Entry, k: Key)
    requires e.key != k
    ensures Find(acc + [e], k) == Find(acc, k)
    decreases |acc|
  {
    if acc != [] {
      assert (acc + [e])[1..] == acc[1..] + [e];
      FindAfterAppend(acc[1..], e, k);
    }
  }

  lemma {:induction false} MergeAllStringKey(acc: seq<Entry>, es: seq<Entry>, k: string)
    requires UniqueKeys(es)
    ensures Find(MergeAll(acc, es), StrKey(k))
         == if Find(es, StrKey(k)).Some? then Find(es, StrKey(k)) else Find(acc, StrKey(k))
    decreases |es|
  {
    if es != [] {
      var e := es[0];
      var acc' := MergeEntry(acc, e);
      assert UniqueKeys(es[1..]) by {
        forall i, j | 0 <= i < j < |es[1..]| ensures es[1..][i].key != es[1..][j].key {
          assert es[1..][i] == es[i + 1] && es[1..][j] == es[j + 1];
        }
      }
      MergeAllStringKey(acc', es[1..], k);
      if e.key.IntKey? {
        FindAfterAppend(acc, Entry(IntKey(|IntValues(acc)|), e.val), StrKey(k));
      } else if e.key == StrKey(k) {
        assert Find(es[1..], StrKey(k)).None? by {
          forall i | 0 <= i < |es[1..]| ensures es[1..][i].key != StrKey(k) {
            assert es[1..][i] == es[i + 1];
          }
        }
      }
    }
  }

  /** `array_merge` on string keys: an entry of `b` wins over the entry of
      `a` with the same key; keys only in `a` keep `a`'s value. */
  lemma ArrayMergeStringKeys(a: seq<Entry>, b: seq<Entry>, k: string)
    requires UniqueKeys(a) && UniqueKeys(b)
    ensures Find(ArrayMerge(a, b), StrKey(k))
         == if Find(b, StrKey(k)).Some? then Find(b, StrKey(k)) else Find(a, StrKey(k))
  {
    MergeAllStringKey([], a, k);
    MergeAllStringKey(MergeAll([], a), b, k);
  }
}
