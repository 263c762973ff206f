/** Strings, optional values and the character classes the word pipeline relies on. */
module Text {

  /** A value that may be missing: pandas' NaN in a dataframe cell. */
  datatype Option<T> = None | Some(value: T)

  /** No element occurs twice. */
  predicate Distinct<T(==)>(s: seq<T>) {
    forall i, j :: 0 <= i < j < |s| ==> s[i] != s[j]
  }

  /** The regular-expression class `\w`, restricted to ASCII: letters, digits and underscore. */
  predicate IsWordChar(c: char) {
    ('a' <= c <= 'z') || ('A' <= c <= 'Z') || ('0' <= c <= '9') || c == '_'
  }

  function LowerChar(c: char): char {
    if 'A' <= c <= 'Z' then (c as int + 32) as char else c
  }

  /** `str.lower()` on ASCII letters; every other character is left alone. */
  function Lower(s: string): (r: string)
    ensures |r| == |s|
  {
    seq(|s|, i requires 0 <= i < |s| => LowerChar(s[i]))
  }

  /** `sep.join(parts)`: the parts in order with `sep` between neighbours. */
  function Join(parts: seq<string>, sep: string): string
    decreases |parts|
  {
    if |parts| == 0 then ""
    else if |parts| == 1 then parts[0]
    else Join(parts[..|parts| - 1], sep) + sep + parts[|parts| - 1]
  }

  /** Joining two non-empty lists is joining the joins: the separator is associative glue. */
  lemma {:induction false} JoinConcat(a: seq<string>, b: seq<string>, sep: string)
    requires |a| > 0 && |b| > 0
    ensures Join(a + b, sep) == Join(a, sep) + sep + Join(b, sep)
    decreases |b|
  {
    if |b| == 1 {
      assert (a + b)[..|a + b| - 1] == a;
    } else {
      var b' := b[..|b| - 1];
      assert (a + b)[..|a + b| - 1] == a + b';
      JoinConcat(a, b', sep);
    }
  }

  /** Keeps, in order, the elements that satisfy `p`: a list comprehension with a condition. */
  function Filter<T>(s: seq<T>, p: T -> bool): (r: seq<T>)
    ensures |r| <= |s|
    decreases |s|
  {
    if |s| == 0 then []
    else
      var f := Filter(s[..|s| - 1], p);
      if p(s[|s| - 1]) then f + [s[|s| - 1]] else f
  }

  /** Filtering a list with one more element at the end. */
  lemma FilterSnoc<T>(s: seq<T>, x: T, p: T -> bool)
    ensures Filter(s + [x], p) == if p(x) then Filter(s, p) + [x] else Filter(s, p)
  {
    assert (s + [x])[..|s|] == s;
  }

  /** Every element is kept as often as it occurs when it satisfies `p`, and never otherwise. */
  lemma {:induction false} FilterCount<T>(s: seq<T>, p: T -> bool)
    ensures forall x :: multiset(Filter(s, p))[x] == if p(x) then multiset(s)[x] else 0
    decreases |s|
  {
    if |s| > 0 {
      var prefix, last := s[..|s| - 1], s[|s| - 1];
      FilterCount(prefix, p);
      assert s == prefix + [last];
      assert multiset(s) == multiset(prefix) + multiset{last};
      var f := Filter(prefix, p);
      assert multiset(f + [last]) == multiset(f) + multiset{last};
    }
  }

  /** An element survives the filter exactly when it occurs and satisfies `p`. */
  lemma FilterMembers<T>(s: seq<T>, p: T -> bool)
    ensures forall x :: x in Filter(s, p) <==> x in s && p(x)
  {
    FilterCount(s, p);
    forall x ensures x in Filter(s, p) <==> x in s && p(x) {
      assert x in Filter(s, p) <==> multiset(Filter(s, p))[x] > 0;
      assert x in s <==> multiset(s)[x] > 0;
    }
  }

  /** Filtering a list without repeats leaves one without repeats. */
  lemma {:induction false} FilterDistinct<T>(s: seq<T>, p: T -> bool)
    requires Distinct(s)
    ensures Distinct(Filter(s, p))
    decreases |s|
  {
    if |s| > 0 {
      var prefix, last := s[..|s| - 1], s[|s| - 1];
      assert Distinct(prefix);
      FilterDistinct(prefix, p);
      FilterMembers(prefix, p);
      assert last !in prefix;
    }
  }

  /** What a filter keeps of a three-element list. */
  lemma FilterThree<T>(a: T, b: T, c: T, p: T -> bool)
    ensures Filter([a, b, c], p) ==
      (if p(a) then [a] else []) + (if p(b) then [b] else []) + (if p(c) then [c] else [])
  {
    FilterSnoc([], a, p);
    assert [] + [a] == [a];
    FilterSnoc([a], b, p);
    assert [a] + [b] == [a, b];
    FilterSnoc([a, b], c, p);
    assert [a, b] + [c] == [a, b, c];
  }

  /** What a filter keeps of a four-element list. */
  lemma FilterFour<T>(a: T, b: T, c: T, d: T, p: T -> bool)
    ensures Filter([a, b, c, d], p) ==
      (if p(a) then [a] else []) + (if p(b) then [b] else []) + (if p(c) then [c] else [])
        + (if p(d) then [d] else [])
  {
    FilterThree(a, b, c, p);
    FilterSnoc([a, b, c], d, p);
    assert [a, b, c] + [d] == [a, b, c, d];
  }

  /** `set(s)` turned back into a list: each element once, here in first-occurrence order. */
  function Dedup<T(==)>(s: seq<T>): (r: seq<T>)
    ensures |r| <= |s|
    decreases |s|
  {
    if |s| == 0 then []
    else
      var d := Dedup(s[..|s| - 1]);
      if s[|s| - 1] in d then d else d + [s[|s| - 1]]
  }

  /** The deduplicated list has no repeats and holds exactly the elements of the original. */
  lemma {:induction false} DedupSpec<T>(s: seq<T>)
    ensures Distinct(Dedup(s))
    ensures forall x :: x in Dedup(s) <==> x in s
    decreases |s|
  {
    if |s| > 0 {
      var prefix, last := s[..|s| - 1], s[|s| - 1];
      DedupSpec(prefix);
      assert s == prefix + [last];
    }
  }
}
