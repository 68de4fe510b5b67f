/** `ListForwardsCommand`: the `list-forward` request and the parsing of its
    reply into `{serial, local, remote}` records.

    The reply is parsed with the global pattern
    `([^\s]+)\s([^\s]+)\s([^\s]+)`: three runs of non-whitespace separated by
    single whitespace characters. The model computes the pattern's match at
    each position directly, and proves it equal to the declarative reading of
    the pattern. */
module ListForwards {
  import opened Types
  import opened Strings

  datatype ForwardsObject = ForwardsObject(serial: string, local: string, remote: string)

  /** The request text `host-serial:<serial>:list-forward`. */
  function ListForwardsRequest(serial: string): string
  {
    "host-serial:" + serial + ":list-forward"
  }

  /** A serial without `:` can be read back from the request by splitting at `:`. */
  lemma ListForwardsRequestSplits(serial: string)
    requires ':' !in serial
    ensures Split(ListForwardsRequest(serial), ':') == ["host-serial", serial, "list-forward"]
  {
    var parts := ["host-serial", serial, "list-forward"];
    assert Join(parts[2..], ':') == "list-forward";
    assert Join(parts[1..], ':') == serial + ":list-forward";
    assert Join(parts, ':') == ListForwardsRequest(serial);
    SplitJoin(parts, ':');
  }

  /** The length of the run of non-whitespace characters starting at `p`. */
  function RunLength(s: string, p: nat): (n: nat)
    requires p <= |s|
    ensures p + n <= |s|
    decreases |s| - p
  {
    if p == |s| || IsSpace(s[p]) then 0 else 1 + RunLength(s, p + 1)
  }

  /** The run holds no whitespace and stops at whitespace or at the end. */
  lemma {:induction false} RunLengthStops(s: string, p: nat)
    requires p <= |s|
    ensures forall k :: p <= k < p + RunLength(s, p) ==> !IsSpace(s[k])
    ensures p + RunLength(s, p) < |s| ==> IsSpace(s[p + RunLength(s, p)])
    decreases |s| - p
  {
    if p < |s| && !IsSpace(s[p]) {
      RunLengthStops(s, p + 1);
    }
  }

  /** A run is determined by where it stops. */
  lemma {:induction false} RunLengthUnique(s: string, p: nat, n: nat)
    requires p + n <= |s|
    requires forall k :: p <= k < p + n ==> !IsSpace(s[k])
    requires p + n < |s| ==> IsSpace(s[p + n])
    ensures RunLength(s, p) == n
    decreases n
  {
    if n > 0 {
      RunLengthUnique(s, p + 1, n - 1);
    }
  }

  /** One match of the pattern: where it starts and ends, and its three groups. */
  datatype Match = Match(start: nat, end: nat, serial: string, local: string, remote: string)

  /** The pattern's match starting exactly at `p`, if any. Each group takes the
      whole run it starts in: a shorter first or second group would not be
      followed by whitespace, and the third group is greedy. */
  function MatchAt(s: string, p: nat): (r: Option<Match>)
    requires p <= |s|
    ensures r.Some? ==> r.value.start == p && p < r.value.end <= |s|
  {
    var n1 := RunLength(s, p);
    if n1 == 0 || p + n1 == |s| then None
    else
      var q := p + n1 + 1;
      var n2 := RunLength(s, q);
      if n2 == 0 || q + n2 == |s| then None
      else
        var q2 := q + n2 + 1;
        var n3 := RunLength(s, q2);
        if n3 == 0 then None
        else Some(Match(p, q2 + n3, s[p..p + n1], s[q..q + n2], s[q2..q2 + n3]))
  }

  /** The declarative reading of a match: from `start`, the text is the
      three non-empty, whitespace-free groups separated by one whitespace
      character each, and the last group is not followed by more of its run. */
  predicate IsMatch(s: string, m: Match) {
    var q := m.start + |m.serial| + 1;
    var q2 := q + |m.local| + 1;
    && |m.serial| > 0 && |m.local| > 0 && |m.remote| > 0
    && NoSpace(m.serial) && NoSpace(m.local) && NoSpace(m.remote)
    && m.end == q2 + |m.remote| <= |s|
    && s[m.start..q - 1] == m.serial && IsSpace(s[q - 1])
    && s[q..q2 - 1] == m.local && IsSpace(s[q2 - 1])
    && s[q2..m.end] == m.remote
    && (m.end == |s| || IsSpace(s[m.end]))
  }

  /** What `MatchAt` finds is a match in the declarative sense. */
  lemma MatchAtSound(s: string, p: nat)
    requires p <= |s| && MatchAt(s, p).Some?
    ensures IsMatch(s, MatchAt(s, p).value)
  {
    var n1 := RunLength(s, p);
    var q := p + n1 + 1;
    var n2 := RunLength(s, q);
    var q2 := q + n2 + 1;
    RunLengthStops(s, p);
    RunLengthStops(s, q);
    RunLengthStops(s, q2);
  }

  lemma SliceNoSpace(s: string, i: nat, j: nat)
    requires i <= j <= |s| && NoSpace(s[i..j])
    ensures forall k :: i <= k < j ==> !IsSpace(s[k])
  {
    assert forall k :: i <= k < j ==> s[k] == s[i..j][k - i];
  }

  /** Every declarative match starting at `p` is the one `MatchAt` finds. */
  lemma MatchAtComplete(s: string, m: Match)
    requires IsMatch(s, m)
    ensures MatchAt(s, m.start) == Some(m)
  {
    var p := m.start;
    var q := p + |m.serial| + 1;
    var q2 := q + |m.local| + 1;
    SliceNoSpace(s, p, q - 1);
    SliceNoSpace(s, q, q2 - 1);
    SliceNoSpace(s, q2, m.end);
    RunLengthUnique(s, p, |m.serial|);
    RunLengthUnique(s, q, |m.local|);
    RunLengthUnique(s, q2, |m.remote|);
  }

  /** The pattern's global search from position `p`: try each position in
      turn, and continue after the end of each match. */
  function FindMatches(s: string, p: nat): (ms: seq<Match>)
    requires p <= |s|
    ensures forall i :: 0 <= i < |ms| ==> p <= ms[i].start < |s| && MatchAt(s, ms[i].start) == Some(ms[i])
    ensures forall i :: 0 <= i < |ms| - 1 ==> ms[i].end <= ms[i + 1].start
    decreases |s| - p
  {
    if p == |s| then []
    else
      match MatchAt(s, p)
      case Some(m) => [m] + FindMatches(s, m.end)
      case None => FindMatches(s, p + 1)
  }

  /** Some match of `ms` starts at or before `q` and ends after it. */
  predicate Covers(ms: seq<Match>, q: nat) {
    exists i :: 0 <= i < |ms| && ms[i].start <= q < ms[i].end
  }

  /** The search misses no match: every position where the pattern matches
      starts one of the found matches or lies inside one. */
  lemma {:induction false} FindMatchesComplete(s: string, p: nat, q: nat)
    requires p <= q < |s| && MatchAt(s, q).Some?
    ensures Covers(FindMatches(s, p), q)
    decreases |s| - p
  {
    var ms := FindMatches(s, p);
    var r := MatchAt(s, p);
    if r.Some? {
      var m := r.value;
      var rest := FindMatches(s, m.end);
      assert ms == [m] + rest;
      if q < m.end {
        assert ms[0].start <= q < ms[0].end;
      } else {
        FindMatchesComplete(s, m.end, q);
        var i :| 0 <= i < |rest| && rest[i].start <= q < rest[i].end;
        assert ms[i + 1] == rest[i];
      }
    } else {
      assert p != q;
      assert ms == FindMatches(s, p + 1);
      FindMatchesComplete(s, p + 1, q);
    }
  }

  /** No record at all exactly when the pattern matches at no position. */
  lemma {:induction false} FindMatchesEmptyIff(s: string, p: nat)
    requires p <= |s|
    ensures FindMatches(s, p) == [] <==> forall q :: p <= q <= |s| ==> MatchAt(s, q).None?
    decreases |s| - p
  {
    if p < |s| {
      FindMatchesEmptyIff(s, p + 1);
    } else {
      assert MatchAt(s, p).None?;
    }
  }

  /** `parse(value)`: one record per match, in the order the matches occur,
      groups 1, 2 and 3 becoming serial, local and remote. */
  function Parse(value: string): (r: seq<ForwardsObject>)
    ensures var ms := FindMatches(value, 0);
            && |r| == |ms|
            && forall i :: 0 <= i < |r| ==> r[i] == ForwardsObject(ms[i].serial, ms[i].local, ms[i].remote)
  {
    ToRecords(FindMatches(value, 0))
  }

  function ToRecords(ms: seq<Match>): (r: seq<ForwardsObject>)
    ensures |r| == |ms|
    ensures forall i :: 0 <= i < |r| ==> r[i] == ForwardsObject(ms[i].serial, ms[i].local, ms[i].remote)
  {
    if |ms| == 0 then [] else [ForwardsObject(ms[0].serial, ms[0].local, ms[0].remote)] + ToRecords(ms[1..])
  }

  /** Every record comes from a match of the pattern, the matches occur in
      order without overlapping, and every field is non-empty and free of
      whitespace. */
  lemma ParseRecords(value: string)
    ensures var r := Parse(value);
            var ms := FindMatches(value, 0);
            && (forall i :: 0 <= i < |r| ==> IsMatch(value, ms[i]))
            && (forall i :: 0 <= i < |r| - 1 ==> ms[i].end <= ms[i + 1].start)
            && (forall i :: 0 <= i < |r| ==>
                  |r[i].serial| > 0 && |r[i].local| > 0 && |r[i].remote| > 0
                  && NoSpace(r[i].serial) && NoSpace(r[i].local) && NoSpace(r[i].remote))
  {
    var ms := FindMatches(value, 0);
    forall i | 0 <= i < |ms| ensures IsMatch(value, ms[i]) {
      MatchAtSound(value, ms[i].start);
    }
  }

  /** A reply in which the pattern matches nowhere parses to no records, and
      only such a reply does. */
  lemma ParseEmptyIff(value: string)
    ensures Parse(value) == [] <==> forall q :: 0 <= q <= |value| ==> MatchAt(value, q).None?
  {
    FindMatchesEmptyIff(value, 0);
  }
}
