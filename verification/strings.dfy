/**
 The Python string operations the extractor relies on: `str.startswith`,
 `str.endswith` and `str.split(sep)` with an explicit one-character separator.
 Strings are sequences of characters; comparisons are exact (case-sensitive).
 */
module Strings {

  /** Python's `s.startswith(prefix)`. */
  predicate StartsWith(s: string, prefix: string) {
    |prefix| <= |s| && s[..|prefix|] == prefix
  }

  /** Python's `s.endswith(suffix)`. */
  predicate EndsWith(s: string, suffix: string) {
    |suffix| <= |s| && s[|s| - |suffix|..] == suffix
  }

  /** A string starts with `prefix` exactly when it is `prefix` followed by
      the rest of the string; the empty string is a prefix of every string. */
  lemma StartsWithDecomposition(s: string, prefix: string)
    ensures StartsWith(s, prefix) <==> exists rest :: s == prefix + rest
    ensures StartsWith(s, [])
  {
    if exists rest :: s == prefix + rest {
      var rest :| s == prefix + rest;
      assert s[..|prefix|] == prefix;
    }
    if StartsWith(s, prefix) {
      assert s == prefix + s[|prefix|..];
    }
  }

  /** A string ends with `suffix` exactly when it is some string followed by
      `suffix`; the empty string is a suffix of every string. */
  lemma EndsWithDecomposition(s: string, suffix: string)
    ensures EndsWith(s, suffix) <==> exists front :: s == front + suffix
    ensures EndsWith(s, [])
  {
    if exists front :: s == front + suffix {
      var front :| s == front + suffix;
      assert s[|s| - |suffix|..] == suffix;
    }
    if EndsWith(s, suffix) {
      assert s == s[..|s| - |suffix|] + suffix;
    }
  }

  /** Position of the first `c` in `s`, or `|s|` when `s` has none. */
  function IndexOf(s: string, c: char): (k: nat)
    ensures k <= |s|
    ensures c !in s[..k]
    ensures k < |s| ==> s[k] == c
  {
    if |s| == 0 then 0
    else if s[0] == c then 0
    else
      var k := IndexOf(s[1..], c);
      assert s[..k + 1] == [s[0]] + s[1..][..k];
      k + 1
  }

  /** The position of the first separator is determined: whatever lies before
      a separator that is not itself preceded by one is the first field. */
  lemma IndexOfAt(a: string, c: char, b: string)
    requires c !in a
    ensures IndexOf(a + [c] + b, c) == |a|
  {
    var s := a + [c] + b;
    assert s[|a|] == c;
  }

  /** Concatenation of the fields with `sep` between consecutive fields:
      Python's `sep.join(parts)`. */
  function Join(parts: seq<string>, sep: char): (s: string)
    requires |parts| >= 1
    decreases |parts|
  {
    if |parts| == 1 then parts[0]
    else parts[0] + [sep] + Join(parts[1..], sep)
  }

  /** Python's `s.split(sep)`: the maximal separator-free fields of `s`, in
      order. There is always at least one field (possibly empty); joining them
      back with `sep` gives `s`. */
  function Split(s: string, sep: char): (parts: seq<string>)
    ensures |parts| >= 1
    ensures forall i :: 0 <= i < |parts| ==> sep !in parts[i]
    ensures Join(parts, sep) == s
    decreases |s|
  {
    var k := IndexOf(s, sep);
    if k == |s| then
      assert s[..k] == s;
      [s]
    else
      var rest := Split(s[k + 1..], sep);
      assert ([s[..k]] + rest)[1..] == rest;
      assert s == s[..k] + [sep] + s[k + 1..];
      [s[..k]] + rest
  }

  /** The other half of the round trip: splitting a join of separator-free
      fields gives those fields back. */
  lemma {:induction false} SplitJoin(parts: seq<string>, sep: char)
    requires |parts| >= 1
    requires forall i :: 0 <= i < |parts| ==> sep !in parts[i]
    ensures Split(Join(parts, sep), sep) == parts
    decreases |parts|
  {
    if |parts| == 1 {
      assert IndexOf(parts[0], sep) == |parts[0]|;
    } else {
      var rest := parts[1..];
      var s := Join(parts, sep);
      assert s == parts[0] + [sep] + Join(rest, sep);
      IndexOfAt(parts[0], sep, Join(rest, sep));
      assert s[..|parts[0]|] == parts[0];
      assert s[|parts[0]| + 1..] == Join(rest, sep);
      SplitJoin(rest, sep);
      assert parts == [parts[0]] + rest;
    }
  }

  /** The first field of a split is the longest separator-free prefix: it is a
      prefix of `s`, contains no `sep`, and is followed by `sep` or by the end. */
  lemma SplitHead(s: string, sep: char)
    ensures var head := Split(s, sep)[0];
      && StartsWith(s, head)
      && sep !in head
      && (|head| == |s| || s[|head|] == sep)
  {
  }
}
