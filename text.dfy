/** String helpers with the meaning Python 2 gives them, over characters rather than bytes:
    `str.strip()`, substring search, `str.split(sep)`, `sep.join(parts)`, and the
    regex classes `\s` and `\d`. */
module Text {
  import opened Results

  /** Whitespace for `str.strip()` and for `\s`. */
  predicate IsSpace(c: char) {
    c == ' ' || c == '\t' || c == '\n' || c == '\r' || c == '\U{000B}' || c == '\U{000C}'
  }

  /** `\d` and `str.isdigit()` on one character. */
  predicate IsDigit(c: char) {
    '0' <= c <= '9'
  }

  predicate AllDigits(s: string) {
    forall i :: 0 <= i < |s| ==> IsDigit(s[i])
  }

  predicate StartsWith(s: string, prefix: string) {
    |prefix| <= |s| && s[..|prefix|] == prefix
  }

  function TrimLeft(s: string): (r: string)
    ensures |r| <= |s|
  {
    if s != [] && IsSpace(s[0]) then TrimLeft(s[1..]) else s
  }

  function TrimRight(s: string): (r: string)
    ensures |r| <= |s|
  {
    if s != [] && IsSpace(s[|s| - 1]) then TrimRight(s[..|s| - 1]) else s
  }

  /** `str.strip()`: the input without its leading and trailing whitespace. */
  function Strip(s: string): (r: string)
    ensures |r| <= |s|
  {
    TrimRight(TrimLeft(s))
  }

  /** `TrimLeft` drops exactly the leading whitespace. */
  lemma {:induction false} TrimLeftDrops(s: string)
    ensures var r := TrimLeft(s);
      && r == s[|s| - |r|..]
      && (forall i :: 0 <= i < |s| - |r| ==> IsSpace(s[i]))
      && (r == [] || !IsSpace(r[0]))
    decreases |s|
  {
    if s != [] && IsSpace(s[0]) {
      TrimLeftDrops(s[1..]);
    }
  }

  /** `TrimRight` drops exactly the trailing whitespace. */
  lemma {:induction false} TrimRightDrops(s: string)
    ensures var r := TrimRight(s);
      && r == s[..|r|]
      && (forall i :: |r| <= i < |s| ==> IsSpace(s[i]))
      && (r == [] || !IsSpace(r[|r| - 1]))
    decreases |s|
  {
    if s != [] && IsSpace(s[|s| - 1]) {
      TrimRightDrops(s[..|s| - 1]);
    }
  }

  /** `strip` keeps a contiguous part of its input that neither starts nor ends with
      whitespace, and removes only whitespace around it. */
  lemma StripShape(s: string)
    ensures var r, i := Strip(s), |s| - |TrimLeft(s)|;
      && (r == [] || (!IsSpace(r[0]) && !IsSpace(r[|r| - 1])))
      && 0 <= i <= |s| - |r| && r == s[i..i + |r|]
      && (forall j :: 0 <= j < i ==> IsSpace(s[j]))
      && (forall j :: i + |r| <= j < |s| ==> IsSpace(s[j]))
  {
    var l := TrimLeft(s);
    TrimLeftDrops(s);
    TrimRightDrops(l);
  }

  /** `pat` occurs in `s` starting at index `j`. */
  predicate MatchesAt(s: string, pat: string, j: nat) {
    j + |pat| <= |s| && s[j..j + |pat|] == pat
  }

  /** The leftmost occurrence of `pat` in `s` at or after `from` (see `FindFromLeftmost`). */
  function FindFrom(s: string, pat: string, from: nat): (r: Option<nat>)
    decreases |s| - from
    ensures r.Some? ==> from <= r.value && MatchesAt(s, pat, r.value)
  {
    if from + |pat| > |s| then None
    else if s[from..from + |pat|] == pat then Some(from)
    else FindFrom(s, pat, from + 1)
  }

  /** No occurrence lies between `from` and the one found; none at all when nothing is found. */
  lemma {:induction false} FindFromLeftmost(s: string, pat: string, from: nat)
    decreases |s| - from
    ensures FindFrom(s, pat, from).Some? ==>
      forall j: nat :: from <= j < FindFrom(s, pat, from).value ==> !MatchesAt(s, pat, j)
    ensures FindFrom(s, pat, from).None? ==> forall j: nat :: from <= j ==> !MatchesAt(s, pat, j)
  {
    if from + |pat| <= |s| && s[from..from + |pat|] != pat {
      FindFromLeftmost(s, pat, from + 1);
    }
  }

  /** The leftmost occurrence of `pat` in `s`, as used by `in` and `str.split`. */
  function Find(s: string, pat: string): (r: Option<nat>)
    ensures r.Some? ==> MatchesAt(s, pat, r.value)
  {
    FindFrom(s, pat, 0)
  }

  /** `Find` reports the leftmost occurrence, and nothing exactly when there is none. */
  lemma FindLeftmost(s: string, pat: string)
    ensures Find(s, pat).Some? ==> forall j: nat :: j < Find(s, pat).value ==> !MatchesAt(s, pat, j)
    ensures Find(s, pat).None? <==> forall j: nat :: !MatchesAt(s, pat, j)
  {
    FindFromLeftmost(s, pat, 0);
  }

  /** The substring test `pat in s`. */
  predicate Contains(s: string, pat: string) {
    Find(s, pat).Some?
  }

  /** For a one-character pattern, `Contains` is sequence membership. */
  lemma ContainsChar(s: string, c: char)
    ensures Contains(s, [c]) <==> c in s
  {
    FindLeftmost(s, [c]);
    if c in s {
      var j :| 0 <= j < |s| && s[j] == c;
      assert MatchesAt(s, [c], j);
    }
    if Contains(s, [c]) {
      var j := Find(s, [c]).value;
      assert s[j] == s[j..j + 1][0];
    }
  }

  /** A pattern whose first character does not occur in `s` does not occur in `s`. */
  lemma AbsentLead(s: string, pat: string)
    requires pat != [] && pat[0] !in s
    ensures !Contains(s, pat)
  {
  }

  /** When the separator's first character does not occur before it, the first cut falls
      right after `pre`. */
  lemma SplitFirst(pre: string, sep: string, post: string)
    requires sep != [] && sep[0] !in pre
    ensures Split(pre + sep + post, sep) == [pre] + Split(post, sep)
  {
    var s := pre + sep + post;
    FindLeftmost(s, sep);
    assert MatchesAt(s, sep, |pre|);
    assert s[..|pre|] == pre;
    assert s[|pre| + |sep|..] == post;
  }

  /** Text without leading or trailing whitespace is its own `strip`. */
  lemma StripUnpadded(u: string)
    requires u == [] || (!IsSpace(u[0]) && !IsSpace(u[|u| - 1]))
    ensures Strip(u) == u
  {
  }

  /** `strip` removes one leading space in front of unpadded text. */
  lemma StripLeadingSpace(u: string)
    requires u == [] || (!IsSpace(u[0]) && !IsSpace(u[|u| - 1]))
    ensures Strip(" " + u) == u
  {
    assert (" " + u)[1..] == u;
    assert TrimLeft(" " + u) == TrimLeft(u) == u;
  }

  /** `strip` is idempotent. */
  lemma StripTwice(s: string)
    ensures Strip(Strip(s)) == Strip(s)
  {
    StripShape(s);
    StripUnpadded(Strip(s));
  }

  /** Only all-whitespace text strips to nothing. */
  lemma StripEmpty(s: string)
    ensures Strip(s) == "" <==> forall i :: 0 <= i < |s| ==> IsSpace(s[i])
  {
    StripShape(s);
    if forall i :: 0 <= i < |s| ==> IsSpace(s[i]) {
      var r := Strip(s);
      if r != "" {
        var k := |s| - |TrimLeft(s)|;
        assert r[0] == s[k];
      }
    }
  }

  /** The first index of `c` in `s` at or after `from`. */
  function IndexFrom(s: string, c: char, from: nat): (r: Option<nat>)
    decreases |s| - from
    ensures r.Some? ==> from <= r.value < |s| && s[r.value] == c
    ensures r.Some? ==> forall k :: from <= k < r.value ==> s[k] != c
    ensures r.None? ==> forall k :: from <= k < |s| ==> s[k] != c
  {
    if from >= |s| then None
    else if s[from] == c then Some(from)
    else IndexFrom(s, c, from + 1)
  }

  /** The first index of `c` in `s`. */
  function IndexOf(s: string, c: char): (r: Option<nat>)
    ensures r.Some? ==> r.value < |s| && s[r.value] == c && c !in s[..r.value]
    ensures r.None? <==> c !in s
  {
    IndexFrom(s, c, 0)
  }

  /** The first `c` in `pre + [c] + rest` is the one after `pre` when `pre` has none. */
  lemma IndexOfAfter(pre: string, c: char, rest: string)
    requires c !in pre
    ensures IndexOf(pre + [c] + rest, c) == Some(|pre|)
  {
    var s := pre + [c] + rest;
    assert s[|pre|] == c;
    assert s[..|pre|] == pre;
  }

  /** `sep.join(parts)`. */
  function Join(parts: seq<string>, sep: string): string
  {
    if |parts| == 0 then ""
    else if |parts| == 1 then parts[0]
    else parts[0] + sep + Join(parts[1..], sep)
  }

  lemma {:induction false} JoinSnoc(parts: seq<string>, x: string, sep: string)
    ensures Join(parts + [x], sep) == if parts == [] then x else Join(parts, sep) + sep + x
    decreases |parts|
  {
    if |parts| >= 2 {
      assert (parts + [x])[1..] == parts[1..] + [x];
      JoinSnoc(parts[1..], x, sep);
    } else if |parts| == 1 {
      assert (parts + [x])[1..] == [x];
    }
  }

  /** No occurrence of `pat` lies inside the part of `s` before its leftmost occurrence. */
  lemma PrefixBeforeFirstMatch(s: string, pat: string, k: nat)
    requires pat != []
    requires Find(s, pat) == Some(k)
    ensures !Contains(s[..k], pat)
  {
    FindLeftmost(s, pat);
    if Contains(s[..k], pat) {
      var j := Find(s[..k], pat).value;
      assert s[..k][j..j + |pat|] == s[j..j + |pat|];
      assert MatchesAt(s, pat, j);
      assert false;
    }
  }

  /** `s.split(sep)`: cut at every leftmost non-overlapping occurrence of `sep`.  There is
      more than one segment exactly when `sep` occurs, and then each is shorter than `s`. */
  function Split(s: string, sep: string): (r: seq<string>)
    requires sep != []
    decreases |s|
    ensures |r| >= 1
    ensures |r| > 1 <==> Contains(s, sep)
    ensures Contains(s, sep) ==> forall i :: 0 <= i < |r| ==> |r[i]| < |s|
  {
    match Find(s, sep)
    case None => [s]
    case Some(k) =>
      var rest := Split(s[k + |sep|..], sep);
      assert forall i :: 0 <= i < |rest| ==> |rest[i]| <= |s[k + |sep|..]|;
      [s[..k]] + rest
  }

  /** Joining the segments with the separator gives back the input, and no segment
      contains the separator. */
  lemma {:induction false} SplitJoin(s: string, sep: string)
    requires sep != []
    decreases |s|
    ensures Join(Split(s, sep), sep) == s
    ensures forall i :: 0 <= i < |Split(s, sep)| ==> !Contains(Split(s, sep)[i], sep)
  {
    match Find(s, sep)
    case None =>
    case Some(k) =>
      var rest := Split(s[k + |sep|..], sep);
      SplitJoin(s[k + |sep|..], sep);
      PrefixBeforeFirstMatch(s, sep, k);
      assert s == s[..k] + sep + s[k + |sep|..] by {
        assert s[k..k + |sep|] == sep;
        assert s == s[..k] + s[k..k + |sep|] + s[k + |sep|..];
      }
      assert Split(s, sep) == [s[..k]] + rest;
      assert ([s[..k]] + rest)[1..] == rest;
  }

  /** The maximal run of digits at the start of `s`, as matched by a greedy `\d+`. */
  function LeadingDigits(s: string): (r: string)
    ensures |r| <= |s| && r == s[..|r|]
    ensures AllDigits(r)
    ensures |r| == |s| || !IsDigit(s[|r|])
  {
    if s != [] && IsDigit(s[0]) then
      var tail := LeadingDigits(s[1..]);
      assert s[..|tail| + 1] == [s[0]] + s[1..][..|tail|];
      [s[0]] + tail
    else []
  }

  /** The digit run of a digit string followed by a non-digit is that string. */
  lemma LeadingDigitsOf(d: string, rest: string)
    requires AllDigits(d)
    requires rest == [] || !IsDigit(rest[0])
    ensures LeadingDigits(d + rest) == d
  {
    assert (d + rest)[..|d|] == d;
  }
}
