/**
 * The pieces of PHP's runtime that the reader relies on: string truthiness,
 * `trim()` with its default character set, and integer-keyed arrays with the
 * key behaviour of `array_merge`, `array_filter` and `array_map`.
 */
module Php {

  /** The characters `trim()` strips by default: " ", "\t", "\n", "\r", "\0" and "\x0B". */
  predicate IsTrimChar(c: char) {
    c == ' ' || c == '\t' || c == '\n' || c == '\r' || c == '\0' || c == 11 as char
  }

  /** A string is falsy in PHP exactly when it is "" or "0". */
  predicate IsFalsy(s: string) {
    s == "" || s == "0"
  }

  /** Every character of `s` is one `trim()` strips. */
  predicate AllTrimChars(s: string) {
    forall i :: 0 <= i < |s| ==> IsTrimChar(s[i])
  }

  /** Every character of `s` at an index from `lo` up to `hi` is a trim character. */
  predicate TrimCharsBetween(s: string, lo: nat, hi: nat)
    requires lo <= hi <= |s|
  {
    forall i :: lo <= i < hi ==> IsTrimChar(s[i])
  }

  /** Where `trim()` starts: scanning forward from `i`, the index of the first
      character it keeps, or the end of `s`. */
  function FirstKept(s: string, i: nat): (k: nat)
    requires i <= |s|
    ensures i <= k <= |s| && TrimCharsBetween(s, i, k)
    ensures k < |s| ==> !IsTrimChar(s[k])
    decreases |s| - i
  {
    if i < |s| && IsTrimChar(s[i]) then FirstKept(s, i + 1) else i
  }

  /** Where `trim()` stops: scanning back from `j`, but not below `lo`, the index
      just past the last character it keeps. */
  function PastLastKept(s: string, lo: nat, j: nat): (k: nat)
    requires lo <= j <= |s|
    ensures lo <= k <= j && TrimCharsBetween(s, k, j)
    ensures lo < k ==> !IsTrimChar(s[k - 1])
    decreases j
  {
    if lo < j && IsTrimChar(s[j - 1]) then PastLastKept(s, lo, j - 1) else j
  }

  /** PHP's `trim($s)`: what lies between the first and the last character that
      is not a trim character. */
  function Trim(s: string): string {
    var a := FirstKept(s, 0);
    s[a..PastLastKept(s, a, |s|)]
  }

  /** Neither end of `trim($s)` is a trim character, and it is empty exactly when
      every character of `s` is one. */
  lemma TrimEnds(s: string)
    ensures Trim(s) == [] || (!IsTrimChar(Trim(s)[0]) && !IsTrimChar(Trim(s)[|Trim(s)| - 1]))
    ensures Trim(s) == [] <==> AllTrimChars(s)
  {
    var a := FirstKept(s, 0);
    var b := PastLastKept(s, a, |s|);
    if a < b {
      assert Trim(s)[0] == s[a];
      assert Trim(s)[|Trim(s)| - 1] == s[b - 1];
    } else {
      assert a == |s|;
    }
  }

  /** `s` splits into stripped characters, `trim($s)`, and stripped characters. */
  lemma TrimSplit(s: string) returns (lead: string, trail: string)
    ensures s == lead + Trim(s) + trail
    ensures AllTrimChars(lead) && AllTrimChars(trail)
  {
    var a := FirstKept(s, 0);
    var b := PastLastKept(s, a, |s|);
    lead, trail := s[..a], s[b..];
    assert s == s[..a] + s[a..b] + s[b..];
    assert AllTrimChars(lead) by {
      forall i | 0 <= i < |lead| ensures IsTrimChar(lead[i]) {
        assert lead[i] == s[i];
      }
    }
    assert AllTrimChars(trail) by {
      forall i | 0 <= i < |trail| ensures IsTrimChar(trail[i]) {
        assert trail[i] == s[b + i];
      }
    }
  }

  /** A string that already starts and ends with a non-trim character is left alone. */
  lemma TrimKeepsTrimmed(s: string)
    requires s == [] || (!IsTrimChar(s[0]) && !IsTrimChar(s[|s| - 1]))
    ensures Trim(s) == s
  {
    assert FirstKept(s, 0) == 0;
    assert PastLastKept(s, 0, |s|) == |s|;
    assert s[0..|s|] == s;
  }

  /** Trimming twice is trimming once. */
  lemma TrimIdempotent(s: string)
    ensures Trim(Trim(s)) == Trim(s)
  {
    TrimEnds(s);
    TrimKeepsTrimmed(Trim(s));
  }


  /** One element of a PHP array whose keys are integers. */
  datatype Entry<T> = Entry(key: nat, value: T)

  /** A PHP list: the values in order under the keys 0, 1, 2, ... */
  function List<T>(vs: seq<T>): seq<Entry<T>> {
    seq(|vs|, i requires 0 <= i < |vs| => Entry(i, vs[i]))
  }

  function Values<T>(a: seq<Entry<T>>): seq<T> {
    seq(|a|, i requires 0 <= i < |a| => a[i].value)
  }

  function Keys<T>(a: seq<Entry<T>>): seq<nat> {
    seq(|a|, i requires 0 <= i < |a| => a[i].key)
  }

  /** Adds `n` to every key. */
  function Shift<T>(a: seq<Entry<T>>, n: nat): seq<Entry<T>> {
    seq(|a|, i requires 0 <= i < |a| => Entry(a[i].key + n, a[i].value))
  }

  /** The keys are numbered 0, 1, 2, ... in order. */
  predicate IsList<T>(a: seq<Entry<T>>) {
    forall i :: 0 <= i < |a| ==> a[i].key == i
  }

  /** Keys grow strictly from front to back. */
  predicate Increasing<T>(a: seq<Entry<T>>) {
    forall i, j :: 0 <= i < j < |a| ==> a[i].key < a[j].key
  }

  /** `array_merge($a, $b)` on integer-keyed arrays: the values of `a` then those
      of `b`, renumbered from 0. */
  function ArrayMerge<T>(a: seq<Entry<T>>, b: seq<Entry<T>>): (r: seq<Entry<T>>)
    ensures IsList(r)
    ensures Values(r) == Values(a) + Values(b)
  {
    List(Values(a) + Values(b))
  }

  /** `array_filter($a)` without a callback: drops the falsy elements, and the
      elements it keeps keep their keys and their order. */
  function ArrayFilter(a: seq<Entry<string>>): (r: seq<Entry<string>>)
    ensures |r| <= |a|
    ensures forall e :: e in r <==> e in a && !IsFalsy(e.value)
  {
    if a == [] then []
    else if IsFalsy(a[0].value) then ArrayFilter(a[1..])
    else [a[0]] + ArrayFilter(a[1..])
  }

  /** The number of values PHP treats as true. */
  function TruthyCount(vs: seq<string>): nat {
    if vs == [] then 0 else (if IsFalsy(vs[0]) then 0 else 1) + TruthyCount(vs[1..])
  }

  /** A list of strings is a PHP list with the same values. */
  lemma ListRoundTrip<T>(vs: seq<T>, a: seq<Entry<T>>)
    requires IsList(a) && Values(a) == vs
    ensures a == List(vs)
  {
    assert |a| == |vs|;
    forall i | 0 <= i < |a| ensures a[i] == List(vs)[i] {
      assert a[i].value == Values(a)[i];
    }
  }

  /** `array_filter` keeps exactly one element per truthy value. */
  lemma {:induction false} ArrayFilterCount(a: seq<Entry<string>>)
    ensures |ArrayFilter(a)| == TruthyCount(Values(a))
  {
    if a != [] {
      ArrayFilterCount(a[1..]);
      assert Values(a[1..]) == Values(a)[1..];
    }
  }

  /** `array_filter` keeps the relative order of what it keeps. */
  lemma {:induction false} ArrayFilterIncreasing(a: seq<Entry<string>>)
    requires Increasing(a)
    ensures Increasing(ArrayFilter(a))
  {
    if a != [] {
      ArrayFilterIncreasing(a[1..]);
      var rest := ArrayFilter(a[1..]);
      forall j | 0 <= j < |rest| ensures a[0].key < rest[j].key {
        assert rest[j] in a[1..];
      }
    }
  }

  /** Filtering a concatenation filters each part. */
  lemma {:induction false} ArrayFilterAppend(a: seq<Entry<string>>, b: seq<Entry<string>>)
    ensures ArrayFilter(a + b) == ArrayFilter(a) + ArrayFilter(b)
  {
    if a != [] {
      assert (a + b)[1..] == a[1..] + b;
      ArrayFilterAppend(a[1..], b);
    } else {
      assert a + b == b;
    }
  }

  /** Filtering does not look at keys, so it commutes with renumbering. */
  lemma {:induction false} ArrayFilterShift(a: seq<Entry<string>>, n: nat)
    ensures ArrayFilter(Shift(a, n)) == Shift(ArrayFilter(a), n)
  {
    if a != [] {
      var x, rest := a[0], a[1..];
      assert a == [x] + rest;
      var y := Entry(x.key + n, x.value);
      ShiftCons(x, rest, n);
      ArrayFilterCons(y, Shift(rest, n));
      ArrayFilterCons(x, rest);
      ArrayFilterShift(rest, n);
      if !IsFalsy(x.value) {
        ShiftCons(x, ArrayFilter(rest), n);
      }
    }
  }

  lemma ArrayFilterCons(x: Entry<string>, rest: seq<Entry<string>>)
    ensures ArrayFilter([x] + rest) == (if IsFalsy(x.value) then [] else [x]) + ArrayFilter(rest)
  {
    assert ([x] + rest)[1..] == rest;
  }

  lemma ShiftCons<T>(e: Entry<T>, a: seq<Entry<T>>, n: nat)
    ensures Shift([e] + a, n) == [Entry(e.key + n, e.value)] + Shift(a, n)
  {
  }

  /** The list of `x + y` is the list of `x` followed by that of `y` with its keys
      moved past `x`. */
  lemma ListAppend<T>(x: seq<T>, y: seq<T>)
    ensures List(x + y) == List(x) + Shift(List(y), |x|)
  {
  }
}
