/** The stored `anomaly_reason` text: the reasons joined with " | ", and the
    split that recovers them. */
module ReasonText {

  const Separator: string := " | "

  /** Python's `" | ".join(parts)`: the text starts with the first part and
      is as long as the parts plus one separator between each two. */
  function Join(parts: seq<string>): (s: string)
    ensures |s| == if parts == [] then 0 else PartsLength(parts) + |Separator| * (|parts| - 1)
    ensures parts != [] ==> parts[0] <= s
  {
    if |parts| == 0 then []
    else if |parts| == 1 then parts[0]
    else parts[0] + Separator + Join(parts[1..])
  }

  /** Splits `s` at each " | ", scanning left to right; `current` is the
      part read so far. */
  function SplitFrom(s: string, current: string): (parts: seq<string>)
    ensures |parts| >= 1
    decreases |s|
  {
    if |s| == 0 then [current]
    else if |s| >= 3 && s[..3] == Separator then [current] + SplitFrom(s[3..], [])
    else SplitFrom(s[1..], current + [s[0]])
  }

  /** The reasons held in a stored reason text: none for the empty text,
      otherwise the pieces between separators. */
  function ParseReasons(s: string): seq<string> {
    if s == [] then [] else SplitFrom(s, [])
  }

  /** A reason that the join cannot blur: non-empty and without a '|'. */
  predicate Clean(part: string) {
    part != [] && '|' !in part
  }

  /** Reading through a part without '|' adds it to the current piece, as long
      as what follows does not begin with '|'. */
  lemma {:induction false} SplitFromSkips(part: string, rest: string, current: string)
    requires '|' !in part
    requires rest == [] || rest[0] != '|'
    ensures SplitFrom(part + rest, current) == SplitFrom(rest, current + part)
    decreases |part|
  {
    if part != [] {
      var s := part + rest;
      assert s[1..] == part[1..] + rest;
      if |s| >= 3 {
        assert s[1] != '|' by {
          if |part| > 1 { assert s[1] == part[1]; } else { assert s[1] == rest[0]; }
        }
        assert s[..3][1] != Separator[1];
      }
      assert '|' !in part[1..] by {
        forall k | 0 <= k < |part[1..]| ensures part[1..][k] != '|' {
          assert part[1..][k] == part[k + 1];
        }
      }
      SplitFromSkips(part[1..], rest, current + [part[0]]);
      assert current + [part[0]] + part[1..] == current + part;
    } else {
      assert part + rest == rest && current + part == current;
    }
  }

  lemma {:induction false} SplitFromJoin(parts: seq<string>, current: string)
    requires parts != []
    requires forall i :: 0 <= i < |parts| ==> Clean(parts[i])
    ensures SplitFrom(Join(parts), current) == [current + parts[0]] + parts[1..]
    decreases |parts|
  {
    if |parts| == 1 {
      SplitFromSkips(parts[0], [], current);
      assert parts[0] + [] == parts[0];
    } else {
      var tail := Join(parts[1..]);
      assert Join(parts) == parts[0] + (Separator + tail);
      SplitFromSkips(parts[0], Separator + tail, current);
      var s := Separator + tail;
      assert s[..3] == Separator && s[3..] == tail;
      SplitFromJoin(parts[1..], []);
      assert [] + parts[1..][0] == parts[1];
      assert [parts[1]] + parts[1..][1..] == parts[1..];
    }
  }

  /** Joining clean reasons and parsing the text gives the reasons back, so
      the stored text loses nothing. */
  lemma JoinParseRoundTrip(parts: seq<string>)
    requires forall i :: 0 <= i < |parts| ==> Clean(parts[i])
    ensures ParseReasons(Join(parts)) == parts
  {
    if parts != [] {
      SplitFromJoin(parts, []);
      assert [] + parts[0] == parts[0];
      assert |Join(parts)| > 0 by {
        assert parts[0] <= Join(parts);
      }
    }
  }

  /** The total length of a list of parts. */
  function PartsLength(parts: seq<string>): nat {
    if parts == [] then 0 else |parts[0]| + PartsLength(parts[1..])
  }

  /** Parts of at most `k` characters join to at most `k + 3` characters per part. */
  lemma {:induction false} JoinLengthBound(parts: seq<string>, k: nat)
    requires forall i :: 0 <= i < |parts| ==> |parts[i]| <= k
    ensures |Join(parts)| <= (k + |Separator|) * |parts|
    decreases |parts|
  {
    if |parts| > 1 {
      var n, tail := |parts|, parts[1..];
      JoinLengthBound(tail, k);
      assert Join(parts) == parts[0] + Separator + Join(tail);
      assert |Join(parts)| == |parts[0]| + 3 + |Join(tail)|;
      assert (k + 3) * n == (k + 3) + (k + 3) * (n - 1);
    }
  }
}
