/** The conflict-body scanner of `write_conflict_body` and `add_tags`
    (build.py:278-311): the pending lines are stripped and joined with single spaces,
    then the text is walked one parenthetical at a time; a parenthetical whose content
    starts with a digit becomes a resolved link group, any other is kept as written. */
module BodyScanner {
  import opened Results
  import opened Text
  import opened LinkGrammar

  /** `add_tags`: its tagging code is commented out, so it returns its argument. */
  function AddTags(text: string): string {
    text
  }

  /** `' '.join([x.strip() for x in self.text])`. */
  function BodyText(lines: seq<string>): string {
    Join(seq(|lines|, i requires 0 <= i < |lines| => Strip(lines[i])), " ")
  }

  /** The pattern `^([^(]*)\(([^)]+)\)(.*)$`: the text before the first `(`, the
      non-empty content up to the first `)` after it, and the rest.  There is no match
      when there is no `(`, no later `)`, or the `)` directly follows the `(`. */
  function MatchParenthetical(text: string): (r: Option<(string, string, string)>)
    ensures r.Some? ==> text == r.value.0 + "(" + r.value.1 + ")" + r.value.2
    ensures r.Some? ==> '(' !in r.value.0 && r.value.1 != [] && ')' !in r.value.1
  {
    match IndexOf(text, '(')
    case None => None
    case Some(i) =>
      match IndexFrom(text, ')', i + 1)
      case None => None
      case Some(k) =>
        if k == i + 1 then None
        else
          CutAround(text, i, k);
          Some((text[..i], text[i + 1..k], text[k + 1..]))
  }

  /** A text is the part before `i`, the characters at `i` and `k` around the part between
      them, and the part after `k`. */
  lemma CutAround(text: string, i: nat, k: nat)
    requires i < k < |text| && text[i] == '(' && text[k] == ')'
    ensures text == text[..i] + "(" + text[i + 1..k] + ")" + text[k + 1..]
  {
    assert text == text[..i] + [text[i]] + text[i + 1..k] + [text[k]] + text[k + 1..];
  }

  /** The match is unique: any split of that shape is the one found. */
  lemma MatchParentheticalOf(pre: string, link: string, post: string)
    requires '(' !in pre && link != [] && ')' !in link
    ensures MatchParenthetical(pre + "(" + link + ")" + post) == Some((pre, link, post))
  {
    ParenPositions(pre, link, post);
    ParenPieces(pre, link, post);
  }

  /** Where the matcher finds the `(` and the `)` of such a split. */
  lemma ParenPositions(pre: string, link: string, post: string)
    requires '(' !in pre && ')' !in link
    ensures var text, i := pre + "(" + link + ")" + post, |pre|;
      IndexOf(text, '(') == Some(i) && IndexFrom(text, ')', i + 1) == Some(i + 1 + |link|)
  {
    var text := pre + "(" + link + ")" + post;
    var i, k := |pre|, |pre| + 1 + |link|;
    IndexOfAfter(pre, '(', link + ")" + post);
    assert text == pre + ['('] + (link + ")" + post);
    assert text[k] == ')';
    assert forall m :: i + 1 <= m < k ==> text[m] == link[m - i - 1];
  }

  /** The three pieces around those positions. */
  lemma ParenPieces(pre: string, link: string, post: string)
    ensures var text, i, k := pre + "(" + link + ")" + post, |pre|, |pre| + 1 + |link|;
      text[..i] == pre && text[i + 1..k] == link && text[k + 1..] == post
  {
  }

  /** What one parenthetical becomes: a resolved link group when its content starts with a
      digit (the content is passed to `parse_links` wrapped in parentheses again), the
      parenthetical itself otherwise. */
  function Replacement(id: string, link: string): Result<string>
    requires link != []
  {
    if IsDigit(link[0]) then LinksHtml(id, "(" + link + ")") else Ok("(" + link + ")")
  }

  /** The text the scanner produces, or the first link failure, in reading order. */
  function ScanBody(id: string, text: string): Result<string>
    decreases |text|
  {
    var m := MatchParenthetical(text);
    if m.None? then Ok(AddTags(text))
    else
      var (pre, link, post) := m.value;
      var h := Replacement(id, link);
      if h.Err? then Err(h.error) else Prefixed(AddTags(pre) + h.value, ScanBody(id, post))
  }

  /** A digit-led parenthetical is replaced by the one group span of its resolution. */
  lemma DigitReplacement(id: string, link: string)
    requires link != [] && ')' !in link && IsDigit(link[0])
    ensures var p := ParseLink(link);
      Replacement(id, link) == if p.Err? then p else Ok(GroupSpan(p.value))
  {
    SingleGroup(id, link);
  }

  /** Scanning stops at the first `(` that has no non-empty `)`-terminated content; the
      whole text is then emitted unchanged. */
  lemma ScanStops(id: string, pre: string, post: string)
    requires '(' !in pre
    requires ')' !in post || (post != [] && post[0] == ')')
    ensures ScanBody(id, pre + "(" + post) == Ok(pre + "(" + post)
  {
    var text := pre + "(" + post;
    assert text[..|pre|] == pre && text[|pre|] == '(';
    assert text[|pre| + 1..] == post;
  }

  /** Text without `(` is emitted unchanged. */
  lemma ScanPlain(id: string, text: string)
    requires '(' !in text
    ensures ScanBody(id, text) == Ok(text)
  {
  }

  /** One step of the scan: the text before the parenthetical, then its replacement, then
      the scan of the rest. */
  lemma ScanStep(id: string, pre: string, link: string, post: string)
    requires '(' !in pre && link != [] && ')' !in link
    ensures var h := Replacement(id, link);
      ScanBody(id, pre + "(" + link + ")" + post) ==
        if h.Err? then h else Prefixed(pre + h.value, ScanBody(id, post))
  {
    MatchParentheticalOf(pre, link, post);
  }

  /** The contents of the parentheticals the scanner visits, in order. */
  function Parentheticals(text: string): (ps: seq<string>)
    decreases |text|
    ensures forall i :: 0 <= i < |ps| ==> ps[i] != []
  {
    var m := MatchParenthetical(text);
    if m.None? then [] else [m.value.1] + Parentheticals(m.value.2)
  }

  /** When no visited parenthetical starts with a digit, nothing is replaced: the output is
      exactly the input. */
  lemma {:induction false} ScanVerbatim(id: string, text: string)
    requires forall i :: 0 <= i < |Parentheticals(text)| ==> !IsDigit(Parentheticals(text)[i][0])
    decreases |text|
    ensures ScanBody(id, text) == Ok(text)
  {
    var m := MatchParenthetical(text);
    if m.Some? {
      var pre, link, post := m.value.0, m.value.1, m.value.2;
      var ps := Parentheticals(post);
      assert Parentheticals(text) == [link] + ps;
      assert !IsDigit(link[0]) by {
        assert Parentheticals(text)[0] == link;
      }
      assert forall i :: 0 <= i < |ps| ==> ps[i] == Parentheticals(text)[i + 1];
      ScanVerbatim(id, post);
      VerbatimStep(id, text);
    }
  }

  /** A parenthetical that does not start with a digit is kept as written. */
  lemma VerbatimStep(id: string, text: string)
    requires MatchParenthetical(text).Some?
    requires !IsDigit(MatchParenthetical(text).value.1[0])
    requires ScanBody(id, MatchParenthetical(text).value.2) == Ok(MatchParenthetical(text).value.2)
    ensures ScanBody(id, text) == Ok(text)
  {
    var pre, link, post := MatchParenthetical(text).value.0, MatchParenthetical(text).value.1,
      MatchParenthetical(text).value.2;
    var h := "(" + link + ")";
    assert Replacement(id, link) == Ok(h);
    assert ScanBody(id, text) == Ok(pre + h + post);
    assert pre + h + post == text;
  }

  /** Every failure of the scan is a link that does not resolve. */
  lemma {:induction false} ScanFailure(id: string, text: string)
    decreases |text|
    ensures ScanBody(id, text).Err? ==> ScanBody(id, text).error.InvalidLinks?
  {
    var m := MatchParenthetical(text);
    if m.Some? {
      var (pre, link, post) := m.value;
      if IsDigit(link[0]) {
        DigitReplacement(id, link);
      }
      ScanFailure(id, post);
    }
  }

  /** One unfolding of the scan, as the loop below takes it. */
  lemma ScanUnfold(id: string, text: string)
    ensures MatchParenthetical(text).None? ==> ScanBody(id, text) == Ok(text)
    ensures MatchParenthetical(text).Some? ==>
      var m := MatchParenthetical(text).value;
      var h := Replacement(id, m.1);
      ScanBody(id, text) == if h.Err? then Err(h.error) else Prefixed(m.0 + h.value, ScanBody(id, m.2))
  {
  }

  /** The loop of `write_conflict_body`: match, replace, append, continue with the rest,
      until nothing matches. */
  method ScanText(id: string, text: string) returns (r: Result<string>)
    ensures r == ScanBody(id, text)
  {
    var newText := "";
    var rest := text;
    var done := false;
    assert Prefixed(newText, ScanBody(id, rest)) == ScanBody(id, text) by {
      if ScanBody(id, text).Ok? {
        assert newText + ScanBody(id, text).value == ScanBody(id, text).value;
      }
    }
    while !done
      invariant !done ==> ScanBody(id, text) == Prefixed(newText, ScanBody(id, rest))
      invariant done ==> ScanBody(id, text) == Ok(newText)
      decreases !done, |rest|
    {
      var m := MatchParenthetical(rest);
      ScanUnfold(id, rest);
      if m.Some? {
        var pre, link, post := m.value.0, m.value.1, m.value.2;
        var hlink: string;
        if IsDigit(link[0]) {
          var h := ParseLinks(id, "(" + link + ")");
          assert h == Replacement(id, link);
          if h.Err? {
            return Err(h.error);
          }
          hlink := h.value;
        } else {
          hlink := "(" + link + ")";
        }
        PrefixedTwice(newText, AddTags(pre) + hlink, ScanBody(id, post));
        newText := newText + (AddTags(pre) + hlink);
        rest := post;
      } else {
        newText := newText + AddTags(rest);
        done := true;
      }
    }
    return Ok(newText);
  }
}
