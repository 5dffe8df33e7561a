/** The reference-link resolver: `Parser.parse_link` (one reference expression) and
    `Parser.parse_links` (a run of parenthesised groups), build.py:36-103. */
module LinkGrammar {
  import opened Results
  import opened Text

  /** An anchor to entry `target` whose visible text is `text`. */
  function Anchor(target: string, text: string): string {
    "<a href=\"#" + target + "\" class=\"clink\">" + text + "</a>"
  }

  /** The wrapper put around each resolved `(...)` group. */
  function GroupSpan(hlink: string): string {
    "<span class=\"clinkgroup\">" + hlink + "</span>"
  }

  /** An atom the grammar rejects: not empty and not digit-led. */
  predicate IsBadAtom(a: string) {
    a != [] && !IsDigit(a[0])
  }

  /** The position of the first failure among `parts`, or `|parts|` when there is none. */
  function FirstFailure(parts: seq<Result<string>>): (k: nat)
    ensures k <= |parts|
    ensures forall j :: 0 <= j < k ==> parts[j].Ok?
    ensures k < |parts| ==> parts[k].Err?
  {
    if parts == [] || parts[0].Err? then 0 else 1 + FirstFailure(parts[1..])
  }

  /** The for-loop over resolved segments with its early return: the first failure,
      or every value in order. */
  function Collect(parts: seq<Result<string>>): (r: Result<seq<string>>)
    ensures r.Ok? <==> forall i :: 0 <= i < |parts| ==> parts[i].Ok?
    ensures r.Ok? ==> |r.value| == |parts| && forall i :: 0 <= i < |parts| ==> parts[i] == Ok(r.value[i])
    ensures r.Err? ==> FirstFailure(parts) < |parts| && parts[FirstFailure(parts)] == Err(r.error)
  {
    if parts == [] then Ok([])
    else match parts[0]
      case Err(e) => Err(e)
      case Ok(v) =>
        match Collect(parts[1..])
        case Err(e) => Err(e)
        case Ok(vs) => Ok([v] + vs)
  }

  /** `parse_link`: a sequence split on `;` is tried first, then an alternation split on
      ` or `, then the empty atom, then a digit-led atom, which links to its leading
      digits and shows the whole atom.  Every failure names an atom the grammar rejects. */
  function ParseLink(link: string): (r: Result<string>)
    decreases |link|, 2
    ensures r.Err? ==> r.error.InvalidLinks? && IsBadAtom(r.error.link)
  {
    if Contains(link, ";") then Compound(link, ";", " ; ")
    else if Contains(link, " or ") then Compound(link, " or ", " or ")
    else if link == [] then Ok("")
    else if IsDigit(link[0]) then Ok(Anchor(LeadingDigits(link), link))
    else Err(InvalidLinks(link))
  }

  /** Split `link` on `sep`, resolve each stripped segment, join the results with `joiner`. */
  function Compound(link: string, sep: string, joiner: string): (r: Result<string>)
    requires sep != [] && Contains(link, sep)
    decreases |link|, 1
    ensures r.Err? ==> r.error.InvalidLinks? && IsBadAtom(r.error.link)
  {
    var parts := Resolutions(link, sep);
    match Collect(parts)
    case Err(e) => Err(e)
    case Ok(hs) => Ok(Join(hs, joiner))
  }

  /** The resolution of every stripped segment of `link` split on `sep`. */
  function Resolutions(link: string, sep: string): (parts: seq<Result<string>>)
    requires sep != [] && Contains(link, sep)
    decreases |link|, 0
    ensures |parts| == |Split(link, sep)|
    ensures forall i :: 0 <= i < |parts| ==> parts[i] == ParseLink(Strip(Split(link, sep)[i]))
  {
    var segments := Split(link, sep);
    seq(|segments|, i requires 0 <= i < |segments| =>
      ParseLink(Strip(segments[i])))
  }

  /** `r` is what the loop over `parts` gives: success exactly when every part succeeds,
      then one value per part joined by `joiner`; otherwise the failure of the first part
      that fails. */
  ghost predicate JoinsParts(parts: seq<Result<string>>, joiner: string, r: Result<string>) {
    && (r.Ok? <==> forall i :: 0 <= i < |parts| ==> parts[i].Ok?)
    && (r.Ok? ==> exists hs: seq<string> ::
          && |hs| == |parts|
          && (forall i :: 0 <= i < |parts| ==> parts[i] == Ok(hs[i]))
          && r.value == Join(hs, joiner))
    && (r.Err? ==> FirstFailure(parts) < |parts| && parts[FirstFailure(parts)] == Err(r.error))
  }

  lemma CompoundResolution(s: string, sep: string, joiner: string)
    requires sep != [] && Contains(s, sep)
    ensures JoinsParts(Resolutions(s, sep), joiner, Compound(s, sep, joiner))
  {
    var parts := Resolutions(s, sep);
    var c := Collect(parts);
    if c.Ok? {
      assert Compound(s, sep, joiner) == Ok(Join(c.value, joiner));
    }
  }

  /** A link containing `;` is a sequence: at least two segments, each stripped and
      resolved (`Resolutions`), joined with ` ; `; this takes precedence over ` or `. */
  lemma SequenceResolution(s: string)
    requires Contains(s, ";")
    ensures |Split(s, ";")| >= 2
    ensures JoinsParts(Resolutions(s, ";"), " ; ", ParseLink(s))
  {
    CompoundResolution(s, ";", " ; ");
  }

  /** A link without `;` but containing ` or ` is an alternation, joined with ` or `. */
  lemma AlternationResolution(s: string)
    requires !Contains(s, ";") && Contains(s, " or ")
    ensures |Split(s, " or ")| >= 2
    ensures JoinsParts(Resolutions(s, " or "), " or ", ParseLink(s))
  {
    CompoundResolution(s, " or ", " or ");
  }

  /** An atom resolves exactly when it is empty or digit-led; the empty atom gives the
      empty string, a digit-led one an anchor to its maximal leading digit run showing
      the unmodified atom. */
  lemma AtomResolution(s: string)
    requires !Contains(s, ";") && !Contains(s, " or ")
    ensures ParseLink(s).Ok? <==> (s == [] || IsDigit(s[0]))
    ensures s == [] ==> ParseLink(s) == Ok("")
    ensures s != [] && IsDigit(s[0]) ==> ParseLink(s) == Ok(Anchor(LeadingDigits(s), s))
    ensures s != [] && !IsDigit(s[0]) ==> ParseLink(s) == Err(InvalidLinks(s))
  {
  }

  /** `parse_links`' pattern `^\((.*?)\) ?(.*)$`: the content of the leading group up to
      the first `)` (it may contain `(`), and the rest after one optional space. */
  function MatchLinkGroup(links: string): (r: Option<(string, string)>)
    ensures r.None? <==> (links == [] || links[0] != '(' || ')' !in links)
    ensures r.Some? ==> ')' !in r.value.0 && |r.value.1| + 2 <= |links|
    ensures r.Some? ==>
      || links == "(" + r.value.0 + ") " + r.value.1
      || (links == "(" + r.value.0 + ")" + r.value.1 && (r.value.1 == [] || r.value.1[0] != ' '))
  {
    if links == [] || links[0] != '(' then None
    else match IndexOf(links, ')')
      case None => None
      case Some(k) =>
        var after := links[k + 1..];
        assert links == "(" + links[1..k] + ")" + after;
        assert links[1..k] == links[..k][1..];
        if after != [] && after[0] == ' ' then
          assert links == "(" + links[1..k] + ") " + after[1..];
          Some((links[1..k], after[1..]))
        else Some((links[1..k], after))
  }

  /** The matcher recovers the group and the rest it was built from. */
  lemma MatchLinkGroupOf(inner: string, rest: string)
    requires ')' !in inner
    ensures MatchLinkGroup("(" + inner + ") " + rest) == Some((inner, rest))
    ensures rest == [] || rest[0] != ' ' ==> MatchLinkGroup("(" + inner + ")" + rest) == Some((inner, rest))
  {
    GroupCloser(inner, " " + rest);
    assert "(" + inner + ") " + rest == "(" + inner + ")" + (" " + rest);
    assert (" " + rest)[1..] == rest;
    GroupCloser(inner, rest);
  }

  /** In `(inner)after` the first `)` closes the group. */
  lemma GroupCloser(inner: string, after: string)
    requires ')' !in inner
    ensures var links := "(" + inner + ")" + after;
      IndexOf(links, ')') == Some(|inner| + 1) && links[1..|inner| + 1] == inner &&
      links[|inner| + 2..] == after
  {
    var links := "(" + inner + ")" + after;
    assert links[..|inner| + 1] == "(" + inner;
    assert links[|inner| + 1] == ')';
  }

  /** The resolved groups of a link list, in order; fails at the first group that is
      malformed or does not resolve, as the loop of `parse_links` does. */
  function ResolveLinks(id: string, links: string): Result<seq<string>>
    decreases |links|
  {
    if links == [] then Ok([])
    else match MatchLinkGroup(links)
      case None => Err(InvalidLink(id, links))
      case Some((inner, rest)) =>
        match ParseLink(inner)
        case Err(e) => Err(e)
        case Ok(h) =>
          match ResolveLinks(id, rest)
          case Err(e) => Err(e)
          case Ok(hs) => Ok([h] + hs)
  }

  /** The span of each resolved group, in order. */
  function Spans(hlinks: seq<string>): seq<string> {
    seq(|hlinks|, i requires 0 <= i < |hlinks| => GroupSpan(hlinks[i]))
  }

  /** What `parse_links` returns: one span per group, separated by single spaces. */
  function LinksHtml(id: string, links: string): Result<string> {
    match ResolveLinks(id, links)
    case Err(e) => Err(e)
    case Ok(hs) => Ok(Join(Spans(hs), " "))
  }

  /** The contents of the `(...)` groups of a well-formed link list, unresolved. */
  function LinkGroups(links: string): Option<seq<string>>
    decreases |links|
  {
    if links == [] then Some([])
    else match MatchLinkGroup(links)
      case None => None
      case Some((inner, rest)) =>
        match LinkGroups(rest)
        case None => None
        case Some(gs) => Some([inner] + gs)
  }

  /** A successful resolution comes from a run of groups, the i-th result being the
      resolution of the i-th group. */
  lemma {:induction false} ResolvedGroups(id: string, links: string)
    decreases |links|
    requires ResolveLinks(id, links).Ok?
    ensures LinkGroups(links).Some?
    ensures var gs, hs := LinkGroups(links).value, ResolveLinks(id, links).value;
      |hs| == |gs| && forall i :: 0 <= i < |gs| ==> ParseLink(gs[i]) == Ok(hs[i])
  {
    if links != [] {
      var inner, rest := MatchLinkGroup(links).value.0, MatchLinkGroup(links).value.1;
      ResolvedGroups(id, rest);
      var gs, hs := LinkGroups(rest).value, ResolveLinks(id, rest).value;
      assert LinkGroups(links).value == [inner] + gs;
      assert ResolveLinks(id, links).value == [ParseLink(inner).value] + hs;
    }
  }

  /** A run of groups each of which resolves is resolved. */
  lemma {:induction false} GroupsResolve(id: string, links: string)
    decreases |links|
    requires LinkGroups(links).Some?
    requires var gs := LinkGroups(links).value; forall i :: 0 <= i < |gs| ==> ParseLink(gs[i]).Ok?
    ensures ResolveLinks(id, links).Ok?
  {
    if links != [] {
      var inner, rest := MatchLinkGroup(links).value.0, MatchLinkGroup(links).value.1;
      var gs := LinkGroups(rest).value;
      assert LinkGroups(links).value == [inner] + gs;
      EachResolves(inner, gs);
      GroupsResolve(id, rest);
    }
  }

  /** Every group of `[g] + gs` resolves: so does `g`, and so does every group of `gs`. */
  lemma EachResolves(g: string, gs: seq<string>)
    requires forall i :: 0 <= i < |[g] + gs| ==> ParseLink(([g] + gs)[i]).Ok?
    ensures ParseLink(g).Ok? && forall i :: 0 <= i < |gs| ==> ParseLink(gs[i]).Ok?
  {
    assert ([g] + gs)[0] == g;
    forall i | 0 <= i < |gs|
      ensures ParseLink(gs[i]).Ok?
    {
      assert gs[i] == ([g] + gs)[i + 1];
    }
  }

  /** `parse_links` succeeds exactly when the text is a run of `(...)` groups whose
      contents all resolve, and then gives one `clinkgroup` span per group, in order,
      separated by single spaces; the empty text gives the empty string. */
  lemma GroupwiseResolution(id: string, links: string)
    ensures LinksHtml(id, links).Ok? <==>
      LinkGroups(links).Some? &&
      var gs := LinkGroups(links).value;
      forall i :: 0 <= i < |gs| ==> ParseLink(gs[i]).Ok?
    ensures LinksHtml(id, links).Ok? ==>
      var gs := LinkGroups(links).value;
      exists hs: seq<string> ::
        && |hs| == |gs|
        && (forall i :: 0 <= i < |gs| ==> ParseLink(gs[i]) == Ok(hs[i]))
        && LinksHtml(id, links).value == Join(Spans(hs), " ")
    ensures links == [] ==> LinksHtml(id, links) == Ok("")
  {
    if LinksHtml(id, links).Ok? {
      ResolvedGroups(id, links);
    }
    if LinkGroups(links).Some? && forall i :: 0 <= i < |LinkGroups(links).value| ==> ParseLink(LinkGroups(links).value[i]).Ok? {
      GroupsResolve(id, links);
    }
  }

  /** Text that is not empty and does not start with a `(...)` group fails, naming the
      current entry and the offending text. */
  lemma MalformedLinks(id: string, links: string)
    requires links != [] && (links[0] != '(' || ')' !in links)
    ensures LinksHtml(id, links) == Err(InvalidLink(id, links))
  {
  }

  /** A single group `(link)` whose content has no `)` resolves to one span. */
  lemma SingleGroup(id: string, link: string)
    requires ')' !in link
    ensures LinksHtml(id, "(" + link + ")") ==
      match ParseLink(link) case Err(e) => Err(e) case Ok(h) => Ok(GroupSpan(h))
  {
    var links := "(" + link + ")";
    assert links + [] == links;
    MatchLinkGroupOf(link, []);
    assert MatchLinkGroup(links) == Some((link, []));
    assert ResolveLinks(id, []) == Ok([]);
    match ParseLink(link)
    case Err(e) =>
      assert ResolveLinks(id, links) == Err(e);
    case Ok(h) =>
      assert [h] + [] == [h];
      assert ResolveLinks(id, links) == Ok([h]);
      assert Spans([h]) == [GroupSpan(h)];
  }

  /** A plain entry number resolves to an anchor to itself. */
  lemma NumberAtom(d: string)
    requires d != [] && AllDigits(d)
    ensures ParseLink(d) == Ok(Anchor(d, d))
  {
    ContainsChar(d, ';');
    assert ' ' !in d;
    AbsentLead(d, " or ");
    LeadingDigitsOf(d, []);
    assert d + [] == d;
    AtomResolution(d);
  }

  /** The same for a number appearing as a segment, which is stripped first. */
  lemma StrippedNumber(d: string)
    requires d != [] && AllDigits(d)
    ensures ParseLink(Strip(d)) == Ok(Anchor(d, d))
  {
    StripUnpadded(d);
    NumberAtom(d);
  }

  /** A compound of exactly two segments joins their two resolutions. */
  lemma TwoSegments(s: string, sep: string, joiner: string, x: string, y: string)
    requires sep != [] && Split(s, sep) == [x, y]
    ensures Contains(s, sep)
    ensures var p, q := ParseLink(Strip(x)), ParseLink(Strip(y));
      Compound(s, sep, joiner) ==
        if p.Err? then p else if q.Err? then q else Ok(p.value + joiner + q.value)
  {
    var p, q := ParseLink(Strip(x)), ParseLink(Strip(y));
    var parts := Resolutions(s, sep);
    assert parts[0] == p && parts[1] == q;
    var tail := parts[1..];
    assert tail[0] == q && tail[1..] == [];
    if p.Ok? && q.Ok? {
      assert Collect(tail[1..]) == Ok([]);
      assert [q.value] + [] == [q.value];
      assert Collect(tail) == Ok([q.value]);
      assert Collect(parts) == Ok([p.value] + [q.value]);
      assert [p.value] + [q.value] == [p.value, q.value];
      assert Join([p.value, q.value], joiner) == p.value + joiner + q.value;
    }
  }

  /** The two segments of `b or c` for entry numbers `b` and `c`. */
  lemma AlternationSplit(b: string, c: string)
    requires b != [] && AllDigits(b) && c != [] && AllDigits(c)
    ensures Split(b + " or " + c, " or ") == [b, c]
  {
    assert ' ' !in b && ' ' !in c;
    AbsentLead(c, " or ");
    SplitFirst(b, " or ", c);
  }

  /** `b or c` for entry numbers `b` and `c` is an alternation of two anchors. */
  lemma AlternationOfNumbers(b: string, c: string)
    requires b != [] && AllDigits(b) && c != [] && AllDigits(c)
    ensures ParseLink(b + " or " + c) == Ok(Anchor(b, b) + " or " + Anchor(c, c))
  {
    var u := b + " or " + c;
    AlternationSplit(b, c);
    assert ';' !in u;
    AbsentLead(u, ";");
    StrippedNumber(b);
    StrippedNumber(c);
    TwoSegments(u, " or ", " or ", b, c);
  }

  /** The two segments of `a; b or c` for entry numbers `a`, `b` and `c`. */
  lemma SequenceSplit(a: string, u: string)
    requires a != [] && AllDigits(a) && ';' !in u
    ensures Split(a + "; " + u, ";") == [a, " " + u]
  {
    assert a + "; " + u == a + ";" + (" " + u);
    assert ';' !in a && ';' !in " " + u;
    SplitFirst(a, ";", " " + u);
    AbsentLead(" " + u, ";");
  }

  /** `a; u` for an entry number `a` and a `;`-free `u` is a sequence of two links. */
  lemma NumberSequence(a: string, u: string, x: string)
    requires a != [] && AllDigits(a) && ';' !in u
    requires ParseLink(Strip(" " + u)) == Ok(x)
    ensures ParseLink(a + "; " + u) == Ok(Anchor(a, a) + " ; " + x)
  {
    var s := a + "; " + u;
    SequenceSplit(a, u);
    StrippedNumber(a);
    TwoSegments(s, ";", " ; ", a, " " + u);
  }

  /** `a; b or c` for entry numbers `a`, `b` and `c` (as in `12; 34 or 56`) is a sequence
      whose second element is the alternation `b or c`: `;` binds loosest. */
  lemma SequenceOfAlternation(a: string, b: string, c: string)
    requires a != [] && AllDigits(a) && b != [] && AllDigits(b) && c != [] && AllDigits(c)
    ensures ParseLink(a + "; " + b + " or " + c) ==
      Ok(Anchor(a, a) + " ; " + Anchor(b, b) + " or " + Anchor(c, c))
  {
    var u := b + " or " + c;
    assert ';' !in u;
    StripLeadingSpace(u);
    AlternationOfNumbers(b, c);
    var x := Anchor(b, b) + " or " + Anchor(c, c);
    NumberSequence(a, u, x);
    Regroup(a + "; ", b, " or ", c);
    Regroup(Anchor(a, a) + " ; ", Anchor(b, b), " or ", Anchor(c, c));
  }

  lemma Regroup(p: string, q: string, r: string, t: string)
    ensures p + (q + r + t) == p + q + r + t
  {
  }

  /** The bare group `()` gives an empty span; a digit-led atom keeps its whole text. */
  lemma SampleAtoms(id: string)
    ensures LinksHtml(id, "()") == Ok(GroupSpan(""))
    ensures ParseLink("2a") == Ok(Anchor("2", "2a"))
  {
    SingleGroup(id, []);
    assert "(" + [] + ")" == "()";
    ContainsChar("2a", ';');
    LeadingDigitsOf("2", "a");
    assert "2" + "a" == "2a";
  }

  /** One iteration of `parse_links`: a leading group that resolves to `h` contributes
      `h` in front of the resolution of the rest. */
  lemma ResolveStep(id: string, links: string, inner: string, rest: string, h: string)
    requires links != [] && MatchLinkGroup(links) == Some((inner, rest))
    requires ParseLink(inner) == Ok(h)
    ensures ResolveLinks(id, links) == Prefixed([h], ResolveLinks(id, rest))
  {
  }

  /** Adding one resolved group adds its span after a single space, or alone at first. */
  lemma SpansSnoc(done: seq<string>, h: string)
    ensures Join(Spans(done + [h]), " ") ==
      if done == [] then GroupSpan(h) else Join(Spans(done), " ") + " " + GroupSpan(h)
  {
    assert Spans(done + [h]) == Spans(done) + [GroupSpan(h)];
    JoinSnoc(Spans(done), GroupSpan(h), " ");
  }

  /** `parse_links` as written: a loop that consumes one group per iteration
      (at least two characters) and appends its span to an accumulator. */
  method ParseLinks(id: string, links: string) returns (r: Result<string>)
    ensures r == LinksHtml(id, links)
  {
    var hyperlinks := "";
    var rest := links;
    ghost var done: seq<string> := [];
    assert Prefixed([], ResolveLinks(id, links)) == ResolveLinks(id, links) by {
      if ResolveLinks(id, links).Ok? {
        assert [] + ResolveLinks(id, links).value == ResolveLinks(id, links).value;
      }
    }
    while |rest| != 0
      invariant hyperlinks == Join(Spans(done), " ")
      invariant (hyperlinks == "") == (done == [])
      invariant ResolveLinks(id, links) == Prefixed(done, ResolveLinks(id, rest))
      decreases |rest|
    {
      var m := MatchLinkGroup(rest);
      if m.None? {
        assert ResolveLinks(id, rest) == Err(InvalidLink(id, rest));
        return Err(InvalidLink(id, rest));
      }
      var (inner, after) := m.value;
      var hlink := ParseLink(inner);
      if hlink.Err? {
        assert ResolveLinks(id, rest) == Err(hlink.error);
        return Err(hlink.error);
      }
      if hyperlinks != "" {
        hyperlinks := hyperlinks + " ";
      }
      hyperlinks := hyperlinks + GroupSpan(hlink.value);
      ResolveStep(id, rest, inner, after, hlink.value);
      PrefixedTwice(done, [hlink.value], ResolveLinks(id, after));
      SpansSnoc(done, hlink.value);
      done := done + [hlink.value];
      rest := after;
    }
    assert done + [] == done;
    return Ok(hyperlinks);
  }
}
