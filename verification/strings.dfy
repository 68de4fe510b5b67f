/** String helpers that stand for the JavaScript built-ins the client relies on:
    the `\s` character class and `trim`, `includes`, `startsWith`, `indexOf`,
    `split` and `Array.prototype.join`. */
module Strings {
  import opened Types

  /** JavaScript's WhiteSpace and LineTerminator characters: what `\s` matches
      in a regular expression and what `String.prototype.trim` removes. */
  predicate IsSpace(c: char) {
    || c == ' ' || c == '\t' || c == '\n' || c == '\r'
    || c == '\U{000B}' || c == '\U{000C}' || c == '\U{00A0}' || c == '\U{1680}'
    || ('\U{2000}' <= c <= '\U{200A}')
    || c == '\U{2028}' || c == '\U{2029}' || c == '\U{202F}' || c == '\U{205F}'
    || c == '\U{3000}' || c == '\U{FEFF}'
  }

  predicate NoSpace(s: string) {
    forall i :: 0 <= i < |s| ==> !IsSpace(s[i])
  }

  predicate StartsWith(s: string, prefix: string) {
    |prefix| <= |s| && s[..|prefix|] == prefix
  }

  /** `needle` occurs in `s` starting at index `i`. */
  predicate OccursAt(s: string, needle: string, i: int) {
    0 <= i && i + |needle| <= |s| && s[i..i + |needle|] == needle
  }

  /** `s.includes(needle)`, computed by sliding over `s`. */
  function Contains(s: string, needle: string): bool
    decreases |s|
  {
    if |s| < |needle| then false
    else if StartsWith(s, needle) then true
    else Contains(s[1..], needle)
  }

  /** The sliding search finds exactly the occurrences the declarative
      definition admits. */
  lemma {:induction false} ContainsIff(s: string, needle: string)
    ensures Contains(s, needle) <==> exists i :: OccursAt(s, needle, i)
    decreases |s|
  {
    if |s| < |needle| {
      forall i | OccursAt(s, needle, i) ensures false {}
    } else if StartsWith(s, needle) {
      assert OccursAt(s, needle, 0);
    } else {
      ContainsIff(s[1..], needle);
      if Contains(s, needle) {
        var j :| OccursAt(s[1..], needle, j);
        assert s[1..][j..j + |needle|] == s[j + 1..j + 1 + |needle|];
        assert OccursAt(s, needle, j + 1);
      } else {
        forall i | OccursAt(s, needle, i) ensures false {
          if i > 0 {
            assert s[1..][i - 1..i - 1 + |needle|] == s[i..i + |needle|];
            assert OccursAt(s[1..], needle, i - 1);
          }
        }
      }
    }
  }

  /** `s.indexOf(c)`, with "not found" reported as `|s|`. */
  function IndexOf(s: string, c: char): (i: nat)
    ensures i <= |s|
    ensures i < |s| ==> s[i] == c
    ensures forall k :: 0 <= k < i ==> s[k] != c
  {
    if |s| == 0 then 0
    else if s[0] == c then 0
    else 1 + IndexOf(s[1..], c)
  }

  /** `s.split(c)` for a one-character separator. */
  function Split(s: string, c: char): (parts: seq<string>)
    ensures |parts| > 0
    ensures forall k :: 0 <= k < |parts| ==> c !in parts[k]
    decreases |s|
  {
    var i := IndexOf(s, c);
    if i == |s| then [s] else [s[..i]] + Split(s[i + 1..], c)
  }

  /** `parts.join(c)`: the empty list joins to the empty string. */
  function Join(parts: seq<string>, c: char): string
  {
    if |parts| == 0 then ""
    else if |parts| == 1 then parts[0]
    else parts[0] + [c] + Join(parts[1..], c)
  }

  lemma IndexOfAfter(a: string, c: char, b: string)
    requires c !in a
    ensures IndexOf(a + [c] + b, c) == |a|
  {
    var s := a + [c] + b;
    assert s[|a|] == c;
    assert forall k :: 0 <= k < |a| ==> s[k] == a[k];
  }

  /** Splitting a joined list gives the list back when no part holds the separator. */
  lemma {:induction false} SplitJoin(parts: seq<string>, c: char)
    requires |parts| > 0
    requires forall k :: 0 <= k < |parts| ==> c !in parts[k]
    ensures Split(Join(parts, c), c) == parts
    decreases |parts|
  {
    if |parts| == 1 {
      assert IndexOf(parts[0], c) == |parts[0]|;
    } else {
      var s := Join(parts, c);
      var tail := Join(parts[1..], c);
      assert s == parts[0] + [c] + tail;
      IndexOfAfter(parts[0], c, tail);
      assert s[..|parts[0]|] == parts[0];
      assert s[|parts[0]| + 1..] == tail;
      SplitJoin(parts[1..], c);
      assert parts == [parts[0]] + parts[1..];
    }
  }

  /** Joining the pieces of a split restores the original string. */
  lemma {:induction false} JoinSplit(s: string, c: char)
    ensures Join(Split(s, c), c) == s
    decreases |s|
  {
    var i := IndexOf(s, c);
    if i < |s| {
      var head := s[..i];
      var rest := s[i + 1..];
      var tail := Split(rest, c);
      var parts := [head] + tail;
      assert Split(s, c) == parts;
      JoinSplit(rest, c);
      assert parts[0] == head && parts[1..] == tail && |parts| > 1;
      assert Join(parts, c) == head + [c] + Join(tail, c);
      assert head + [c] + rest == s;
    } else {
      assert Split(s, c) == [s];
    }
  }

  /** `s.startsWith(prefix)` holds of any string that extends the prefix. */
  lemma StartsWithAppend(prefix: string, rest: string)
    ensures StartsWith(prefix + rest, prefix)
  {
    assert (prefix + rest)[..|prefix|] == prefix;
  }

  /** A string starts with `p + q` exactly when it starts with `p` and the
      rest starts with `q`. */
  lemma StartsWithConcat(s: string, p: string, q: string)
    ensures StartsWith(s, p + q) <==> StartsWith(s, p) && StartsWith(s[|p|..], q)
  {
    if |p| + |q| <= |s| {
      assert s[..|p| + |q|] == s[..|p|] + s[|p|..][..|q|];
    }
  }

  /** Splits `s` at the first occurrence of `c`. */
  function SplitFirst(s: string, c: char): (r: Option<(string, string)>)
    ensures r.Some? ==> s == r.value.0 + [c] + r.value.1 && c !in r.value.0
    ensures r.None? <==> c !in s
  {
    var i := IndexOf(s, c);
    if i == |s| then None else Some((s[..i], s[i + 1..]))
  }

  lemma SplitFirstAfter(a: string, c: char, b: string)
    requires c !in a
    ensures SplitFirst(a + [c] + b, c) == Some((a, b))
  {
    IndexOfAfter(a, c, b);
    assert (a + [c] + b)[..|a|] == a;
    assert (a + [c] + b)[|a| + 1..] == b;
  }

  /** What follows `prefix` in `s`, if `s` begins with it. */
  function AfterPrefix(s: string, prefix: string): (r: Option<string>)
    ensures r.Some? ==> s == prefix + r.value
  {
    if StartsWith(s, prefix) then Some(s[|prefix|..]) else None
  }

  lemma AfterPrefixAppend(prefix: string, rest: string)
    ensures AfterPrefix(prefix + rest, prefix) == Some(rest)
  {
    StartsWithAppend(prefix, rest);
    assert (prefix + rest)[|prefix|..] == rest;
  }

  /** Drops leading whitespace. */
  function TrimStart(s: string): (r: string)
    ensures |r| <= |s| && r == s[|s| - |r|..]
    ensures forall k :: 0 <= k < |s| - |r| ==> IsSpace(s[k])
    ensures |r| > 0 ==> !IsSpace(r[0])
  {
    if |s| > 0 && IsSpace(s[0]) then TrimStart(s[1..]) else s
  }

  /** Drops trailing whitespace. */
  function TrimEnd(s: string): (r: string)
    ensures |r| <= |s| && r == s[..|r|]
    ensures forall k :: |r| <= k < |s| ==> IsSpace(s[k])
    ensures |r| > 0 ==> !IsSpace(r[|r| - 1])
  {
    if |s| > 0 && IsSpace(s[|s| - 1]) then TrimEnd(s[..|s| - 1]) else s
  }

  /** `s.trim()`: the result is a contiguous piece of `s`, with only whitespace
      cut away on either side, and neither begins nor ends with whitespace. */
  function Trim(s: string): (r: string)
    ensures exists i, j :: 0 <= i <= j <= |s| && r == s[i..j]
                           && (forall k :: 0 <= k < i ==> IsSpace(s[k]))
                           && (forall k :: j <= k < |s| ==> IsSpace(s[k]))
    ensures |r| > 0 ==> !IsSpace(r[0]) && !IsSpace(r[|r| - 1])
  {
    var t := TrimStart(s);
    var r := TrimEnd(t);
    assert r == s[|s| - |t|..|s| - |t| + |r|];
    r
  }

  /** Trimming text that has no whitespace at either end changes nothing. */
  lemma TrimNoEdgeSpace(s: string)
    requires |s| > 0 ==> !IsSpace(s[0]) && !IsSpace(s[|s| - 1])
    ensures Trim(s) == s
  {
    assert TrimStart(s) == s;
    assert TrimEnd(s) == s;
  }
}
