/** What `process_line` guarantees: the effect of each directive, the priority and
    one-shot behaviour of the formatting modes, the paragraph separator, the conflict
    region protocol, and that output is only ever appended to. */
module Protocol {
  import opened Results
  import opened Text
  import opened LinkGrammar
  import opened BodyScanner
  import opened Lines
  import opened Html
  import opened Machine

  /** The four mode fields, in priority order. */
  function ModesOf(st: ParserState): (Option<string>, Option<string>, Option<string>, Option<string>) {
    (st.formatParagraph, st.formatLines, st.formatNextLine, st.formatLinks)
  }

  /** What a directive writes. */
  function DirectiveOutput(d: Directive): seq<string> {
    match d
    case BeginLines(t) => [OpenDiv(t)]
    case BeginParagraph(t) => [OpenDiv(t)]
    case EndFormat => [DivEnd]
    case Rule => [HorizontalRule]
    case _ => []
  }

  /** Step on a comment line is the directive's step. */
  lemma CommentDispatch(st: ParserState, line: string)
    requires ParseDirective(line).Some?
    ensures Step(st, line) == Stepped(DirectiveStep(st, line, ParseDirective(line).value), Pass)
  {
  }

  /** Step on a line outside every mode is the record's step. */
  lemma RecordDispatch(st: ParserState, line: string)
    requires ParseDirective(line).None? && NoModeActive(st)
    ensures Step(st, line) == RecordStep(st, line)
  {
  }

  lemma DirectiveStepEffect(st: ParserState, line: string, d: Directive)
    ensures var r := DirectiveStep(st, line, d);
      SameStructure(st, r) && r.blankLine == st.blankLine && r.out == st.out + DirectiveOutput(d)
  {
  }

  /** A comment line converts, keeps everything outside the modes, and writes what its
      directive writes. */
  lemma DirectiveEffect(st: ParserState, line: string)
    requires ParseDirective(line).Some?
    ensures var r := Step(st, line);
      && r.outcome == Pass
      && SameStructure(st, r.st) && r.st.blankLine == st.blankLine
      && r.st.out == st.out + DirectiveOutput(ParseDirective(line).value)
  {
    CommentDispatch(st, line);
    DirectiveStepEffect(st, line, ParseDirective(line).value);
  }

  /** The modes after a comment line: a `FORMAT` directive leaves exactly its own mode set,
      `FORMAT_END` none, `HR` leaves them as they were, and any other comment clears them
      when it starts with `-- FORMAT` and leaves them otherwise. */
  lemma DirectiveModes(st: ParserState, line: string)
    requires ParseDirective(line).Some?
    ensures var d, m := ParseDirective(line).value, ModesOf(Step(st, line).st);
      && (d.BeginParagraph? ==> m == (Some(d.tag), None, None, None))
      && (d.BeginLines? ==> m == (None, Some(d.tag), None, None))
      && (d.NextLine? ==> m == (None, None, Some(d.tag), None))
      && (d.LinksLine? ==> m == (None, None, None, Some(d.tag)))
      && (d == EndFormat ==> m == (None, None, None, None))
      && (d == Rule ==> m == ModesOf(st))
      && (d == Ignored ==> m == if ClearsModes(line) then (None, None, None, None) else ModesOf(st))
  {
    ClearingDirectives(line);
  }

  /** After any comment line that starts with `-- FORMAT`, at most one mode is set. */
  lemma FormatDirectiveLeavesOneMode(st: ParserState, line: string)
    requires ParseDirective(line).Some? && ClearsModes(line)
    ensures AtMostOneMode(Step(st, line).st)
  {
    DirectiveModes(st, line);
  }

  /** No step sets a second mode: at most one mode is set in every reachable state. */
  lemma StepKeepsAtMostOneMode(st: ParserState, line: string)
    requires AtMostOneMode(st)
    ensures AtMostOneMode(Step(st, line).st)
  {
    if ParseDirective(line).Some? {
      DirectiveModes(st, line);
    } else if NoModeActive(st) {
      RecordDispatch(st, line);
      RecordFrame(st, line);
    } else {
      ModeKeepsStructure(st, line);
    }
  }

  lemma {:induction false} RunKeepsAtMostOneMode(st: ParserState, lines: seq<string>)
    requires AtMostOneMode(st)
    decreases |lines|
    ensures AtMostOneMode(Run(st, lines).st)
  {
    if lines != [] {
      StepKeepsAtMostOneMode(st, lines[0]);
      RunKeepsAtMostOneMode(Step(st, lines[0]).st, lines[1..]);
    }
  }

  /** Paragraph mode takes every non-comment line: a blank line writes the separator only
      when the previous line did not, any other line is written stripped. */
  lemma ParagraphLine(st: ParserState, line: string)
    requires ParseDirective(line).None? && Active(st.formatParagraph)
    ensures var r, s := Step(st, line), Strip(line);
      && r.outcome == Pass && SameStructure(st, r.st) && SameModes(st, r.st)
      && (s == "" && !st.blankLine ==>
            r.st.out == st.out + [ParagraphBreak(st.formatParagraph.value)] && r.st.blankLine)
      && (s == "" && st.blankLine ==> r.st == st)
      && (s != "" ==> r.st.out == st.out + [s + "\n"] && !r.st.blankLine)
  {
    StripTwice(line);
  }

  /** Lines mode, when paragraph mode is off, writes each line stripped with a break. */
  lemma LinesLine(st: ParserState, line: string)
    requires ParseDirective(line).None? && !Active(st.formatParagraph) && Active(st.formatLines)
    ensures var r := Step(st, line);
      && r.outcome == Pass && SameStructure(st, r.st) && SameModes(st, r.st)
      && r.st.blankLine == st.blankLine && r.st.out == st.out + [Strip(line) + "<br/>\n"]
  {
  }

  /** Next-line mode takes one line, writes it in its block, and switches itself off. */
  lemma NextLineOnce(st: ParserState, line: string)
    requires ParseDirective(line).None?
    requires !Active(st.formatParagraph) && !Active(st.formatLines) && Active(st.formatNextLine)
    ensures var r := Step(st, line);
      && r.outcome == Pass && SameStructure(st, r.st) && r.st.blankLine == st.blankLine
      && ModesOf(r.st) == (st.formatParagraph, st.formatLines, None, st.formatLinks)
      && r.st.out == st.out + [TaggedDiv(st.formatNextLine.value, Strip(line))]
  {
  }

  /** A links-mode line with an `(a) `-style label, after any whitespace: the label is kept
      in front of the resolved links, and the mode switches itself off.  When the links do
      not resolve, nothing changes and the run fails. */
  lemma LabelledLinksLine(st: ParserState, ws: string, c: char, rest: string)
    requires forall i :: 0 <= i < |ws| ==> IsSpace(ws[i])
    requires 'a' <= c <= 'd'
    requires ParseDirective(ws + "(" + [c] + ") " + rest).None?
    requires !Active(st.formatParagraph) && !Active(st.formatLines) && !Active(st.formatNextLine)
    requires Active(st.formatLinks)
    ensures var r, h := Step(st, ws + "(" + [c] + ") " + rest), LinksHtml(st.id, Strip(rest));
      && (h.Err? ==> r == Stepped(st, Fail(h.error)))
      && (h.Ok? ==>
            && r.outcome == Pass && SameStructure(st, r.st) && r.st.blankLine == st.blankLine
            && ModesOf(r.st) == (st.formatParagraph, st.formatLines, st.formatNextLine, None)
            && r.st.out == st.out + [TaggedDiv(st.formatLinks.value, "(" + [c] + ")" + h.value)])
  {
    LinksPrefixOf(ws, c, rest);
  }

  /** A links-mode line without a label: the whole stripped line is resolved. */
  lemma PlainLinksLine(st: ParserState, line: string)
    requires LinksPrefix(line).None? && ParseDirective(line).None?
    requires !Active(st.formatParagraph) && !Active(st.formatLines) && !Active(st.formatNextLine)
    requires Active(st.formatLinks)
    ensures var r, h := Step(st, line), LinksHtml(st.id, Strip(line));
      && (h.Err? ==> r == Stepped(st, Fail(h.error)))
      && (h.Ok? ==>
            && r.outcome == Pass && SameStructure(st, r.st) && r.st.blankLine == st.blankLine
            && ModesOf(r.st) == (st.formatParagraph, st.formatLines, st.formatNextLine, None)
            && r.st.out == st.out + [TaggedDiv(st.formatLinks.value, h.value)])
  {
    var h := LinksHtml(st.id, Strip(line));
    if h.Ok? {
      assert "" + h.value == h.value;
    }
  }

  /** Links mode keeps everything outside the modes, and at most switches itself off. */
  lemma LinksModeFrame(st: ParserState, tag: string, line: string)
    ensures var r := LinksModeStep(st, tag, line).st;
      && SameStructure(st, r) && r.blankLine == st.blankLine && st.out <= r.out
      && ModesOf(r) in {ModesOf(st), (st.formatParagraph, st.formatLines, st.formatNextLine, None)}
  {
  }

  /** An active mode takes the line: nothing outside the modes changes, output is only
      appended, and each mode either keeps its value or is cleared, so no mode is set that
      was not set before. */
  lemma ModeKeepsStructure(st: ParserState, line: string)
    requires ParseDirective(line).None? && !NoModeActive(st)
    ensures var r := Step(st, line).st;
      && SameStructure(st, r) && st.out <= r.out && ModeCount(r) <= ModeCount(st)
      && (r.formatParagraph == st.formatParagraph || r.formatParagraph.None?)
      && (r.formatLines == st.formatLines || r.formatLines.None?)
      && (r.formatNextLine == st.formatNextLine || r.formatNextLine.None?)
      && (r.formatLinks == st.formatLinks || r.formatLinks.None?)
  {
    if Active(st.formatParagraph) {
      ParagraphLine(st, line);
    } else if Active(st.formatLines) {
      LinesLine(st, line);
    } else if Active(st.formatNextLine) {
      NextLineOnce(st, line);
    } else {
      assert Step(st, line) == LinksModeStep(st, st.formatLinks.value, line);
      LinksModeFrame(st, st.formatLinks.value, line);
    }
  }

  /** The fields a PRE line does not touch, and output only grows. */
  lemma PreStepFrame(st: ParserState, sub: string, ls: string)
    ensures var r := PreStep(st, sub, ls).st;
      && SameModes(st, r) && r.blankLine == st.blankLine && st.out <= r.out
      && r.group == st.group && r.subgroup == st.subgroup && r.id == st.id
      && r.bclauseId == st.bclauseId && r.bclauseName == st.bclauseName && r.subid == st.subid
  {
  }

  /** The conflict body writes the description block and the POST links, and changes
      nothing else; a body link that does not resolve stops it after the opening tag. */
  lemma ConflictBodyEffect(st: ParserState, links: string)
    ensures var r, b := ConflictBody(st, links), ScanBody(st.id, BodyText(st.text));
      && SameStructure(st, r.st) && SameModes(st, r.st) && r.st.blankLine == st.blankLine
      && (b.Err? ==> r.outcome == Fail(b.error) && r.st.out == st.out + [DescOpen])
      && (b.Ok? ==>
            r.outcome == Pass && r.st.out == st.out + [DescOpen, b.value, DivEnd, PostLinks(links)])
  {
    var b := ScanBody(st.id, BodyText(st.text));
    if b.Ok? {
      Appended4(st.out, DescOpen, b.value, DivEnd, PostLinks(links));
    }
  }

  lemma Appended4(s: seq<string>, a: string, b: string, c: string, d: string)
    ensures s + [a] + [b] + [c] + [d] == s + [a, b, c, d]
  {
  }

  /** The fields a POST line does not touch, and output only grows. */
  lemma PostStepFrame(st: ParserState, ls: string)
    ensures var r := PostStep(st, ls).st;
      && SameModes(st, r) && r.blankLine == st.blankLine && st.out <= r.out
      && r.group == st.group && r.subgroup == st.subgroup && r.id == st.id
      && r.bclauseId == st.bclauseId && r.bclauseName == st.bclauseName && r.subid == st.subid
  {
    var h := LinksHtml(st.id, ls);
    if st.inConflict && h.Ok? {
      ConflictBodyEffect(st.(inConflict := false), h.value);
    }
  }

  /** Records never touch the modes or `blank_line`, and only append to the output. */
  lemma RecordFrame(st: ParserState, line: string)
    ensures var r := RecordStep(st, line).st;
      SameModes(st, r) && r.blankLine == st.blankLine && st.out <= r.out
  {
    match ParseRecord(line)
    case PreLine(sub, ls) => PreStepFrame(st, sub, ls);
    case PostLine(ls) => PostStepFrame(st, ls);
    case _ =>
  }

  /** The line after the one next-line mode took is handled as if the mode had never been
      set, when no other mode is active. */
  lemma NextLineThenRecord(st: ParserState, first: string, second: string)
    requires ParseDirective(first).None? && ParseDirective(second).None?
    requires !Active(st.formatParagraph) && !Active(st.formatLines) && Active(st.formatNextLine)
    requires !Active(st.formatLinks)
    ensures Step(Step(st, first).st, second) == RecordStep(Step(st, first).st, second)
  {
    NextLineOnce(st, first);
  }

  /** A line that strips to nothing is not a comment. */
  lemma BlankNotComment(line: string)
    requires Strip(line) == ""
    ensures ParseDirective(line).None?
  {
    StripEmpty(line);
    if |line| >= 2 {
      assert IsSpace(line[0]);
    }
  }

  /** In paragraph mode, a run of blank lines writes one separator, for its first line, and
      none at all when the line before the run was blank already. */
  lemma {:induction false} BlankRun(st: ParserState, lines: seq<string>)
    requires Active(st.formatParagraph)
    requires forall i :: 0 <= i < |lines| ==> Strip(lines[i]) == ""
    decreases |lines|
    ensures lines == [] || st.blankLine ==> Run(st, lines) == Stepped(st, Pass)
    ensures lines != [] && !st.blankLine ==>
      Run(st, lines) == Stepped(Write(st, ParagraphBreak(st.formatParagraph.value)).(blankLine := true), Pass)
  {
    if lines != [] {
      BlankNotComment(lines[0]);
      var next := Step(st, lines[0]).st;
      assert forall i :: 0 <= i < |lines[1..]| ==> lines[1..][i] == lines[i + 1];
      ParagraphLine(st, lines[0]);
      BlankRun(next, lines[1..]);
    }
  }

  /** A line that is neither a comment nor a record. */
  predicate IsPlain(line: string) {
    ParseDirective(line).None? && ParseRecord(line) == PlainLine
  }

  /** A line starting with a record's first character is not a comment. */
  lemma NotComment(line: string, lead: string)
    requires StartsWith(line, lead) && lead != [] && lead[0] != '-'
    ensures ParseDirective(line).None?
  {
    Differs(line, lead, "--", 0);
  }

  /** `Conflict{n}` makes `n` the current entry, starts its branch list afresh and writes
      its header. */
  lemma ConflictOpens(st: ParserState, n: string)
    requires NoModeActive(st) && n != [] && AllDigits(n)
    ensures Step(st, "Conflict{" + n + "}") ==
      Stepped(st.(id := n, links := st.links[n := []], out := st.out + [ConflictHeader(n)]), Pass)
  {
    ConflictOf(n);
    PrefixOf("Conflict{", n + "}");
    assert "Conflict{" + n + "}" == "Conflict{" + (n + "}");
    NotComment("Conflict{" + n + "}", "Conflict{");
  }

  /** A PRE line opens a region with no pending text and records its subid under the
      current entry; before any `Conflict{n}` there is no entry and the run fails.  The
      links of the line are resolved into the sub-header. */
  lemma PreOpens(st: ParserState, sub: string, ls: string)
    requires NoModeActive(st)
    requires sub == "" || (|sub| == 1 && 'a' <= sub[0] <= 'm')
    ensures var r, h := Step(st, RecordText(PreLine(sub, ls))), LinksHtml(st.id, ls);
      && r.st.inConflict && r.st.text == [] && r.st.id == st.id && SameModes(st, r.st)
      && (st.id !in st.links ==> r.outcome == Fail(UnknownConflict(st.id)) && r.st.out == st.out)
      && (st.id in st.links ==> r.st.links == st.links[st.id := st.links[st.id] + [sub]])
      && (st.id in st.links && h.Err? ==> r.outcome == Fail(h.error) && r.st.out == st.out)
      && (st.id in st.links && h.Ok? ==>
            r.outcome == Pass && r.st.out == st.out + [ConflictSubheader(sub, h.value)])
  {
    PreOf(sub, ls);
    var line := RecordText(PreLine(sub, ls));
    if sub == "" {
      PrefixOf("PRE: ", ls);
      NotComment(line, "PRE: ");
    } else {
      var lead := "(" + sub + ") ";
      assert line == lead + ("PRE: " + ls);
      PrefixOf(lead, "PRE: " + ls);
      NotComment(line, lead);
    }
  }

  /** A POST line outside a region fails and changes nothing. */
  lemma PostOutside(st: ParserState, ls: string)
    requires NoModeActive(st) && !st.inConflict
    ensures Step(st, "POST: " + ls) == Stepped(st, Fail(PostOutsideRegion))
  {
    PostOf(ls);
    PrefixOf("POST: ", ls);
    NotComment("POST: " + ls, "POST: ");
  }

  /** A POST line inside a region closes it, is not added to the pending text, and writes
      the scanned description and its own links. */
  lemma PostCloses(st: ParserState, ls: string)
    requires NoModeActive(st) && st.inConflict
    ensures var r, h, b := Step(st, "POST: " + ls), LinksHtml(st.id, ls), ScanBody(st.id, BodyText(st.text));
      && !r.st.inConflict && r.st.text == st.text && r.st.links == st.links && r.st.id == st.id
      && (h.Err? ==> r.outcome == Fail(h.error) && r.st.out == st.out)
      && (h.Ok? && b.Err? ==> r.outcome == Fail(b.error) && r.st.out == st.out + [DescOpen])
      && (h.Ok? && b.Ok? ==>
            r.outcome == Pass && r.st.out == st.out + [DescOpen, b.value, DivEnd, PostLinks(h.value)])
  {
    PostOf(ls);
    PrefixOf("POST: ", ls);
    NotComment("POST: " + ls, "POST: ");
    RecordDispatch(st, "POST: " + ls);
    PostStepEffect(st, ls);
  }

  lemma PostStepEffect(st: ParserState, ls: string)
    requires st.inConflict
    ensures var r, h, b := PostStep(st, ls), LinksHtml(st.id, ls), ScanBody(st.id, BodyText(st.text));
      && !r.st.inConflict && r.st.text == st.text && r.st.links == st.links && r.st.id == st.id
      && (h.Err? ==> r.outcome == Fail(h.error) && r.st.out == st.out)
      && (h.Ok? && b.Err? ==> r.outcome == Fail(b.error) && r.st.out == st.out + [DescOpen])
      && (h.Ok? && b.Ok? ==>
            r.outcome == Pass && r.st.out == st.out + [DescOpen, b.value, DivEnd, PostLinks(h.value)])
  {
    var h := LinksHtml(st.id, ls);
    if h.Ok? {
      ConflictBodyEffect(st.(inConflict := false), h.value);
    }
  }

  /** A plain line outside every mode is added to the pending text inside a region and
      dropped outside one. */
  lemma PlainLineText(st: ParserState, line: string)
    requires NoModeActive(st) && IsPlain(line)
    ensures Step(st, line) == Stepped(st.(text := if st.inConflict then st.text + [line] else st.text), Pass)
  {
  }

  /** Outside the modes the pending text changes on two kinds of line only: a `PRE:` line
      empties it, and a line no rule matches is appended to it inside a region. */
  lemma PendingText(st: ParserState, line: string)
    requires NoModeActive(st) && ParseDirective(line).None?
    ensures var t := Step(st, line).st.text;
      && (ParseRecord(line).PreLine? ==> t == [])
      && (ParseRecord(line) == PlainLine ==> t == if st.inConflict then st.text + [line] else st.text)
      && (!ParseRecord(line).PreLine? && ParseRecord(line) != PlainLine ==> t == st.text)
  {
    RecordDispatch(st, line);
    RecordPendingText(st, line, ParseRecord(line));
  }

  lemma RecordPendingText(st: ParserState, line: string, r: Record)
    ensures var t := RecordEffect(st, line, r).st.text;
      && (r.PreLine? ==> t == [])
      && (r == PlainLine ==> t == if st.inConflict then st.text + [line] else st.text)
      && (!r.PreLine? && r != PlainLine ==> t == st.text)
  {
    if r.PostLine? && st.inConflict {
      PostStepEffect(st, r.links);
    }
  }

  /** The tail of a run of plain lines is a run of plain lines. */
  lemma PlainTail(lines: seq<string>)
    requires lines != [] && forall i :: 0 <= i < |lines| ==> IsPlain(lines[i])
    ensures IsPlain(lines[0]) && forall i :: 0 <= i < |lines[1..]| ==> IsPlain(lines[1..][i])
  {
    assert forall i :: 0 <= i < |lines[1..]| ==> lines[1..][i] == lines[i + 1];
  }

  /** Inside a region, plain lines are collected in order, and nothing is written. */
  lemma {:induction false} RegionCollects(st: ParserState, lines: seq<string>)
    requires NoModeActive(st) && st.inConflict
    requires forall i :: 0 <= i < |lines| ==> IsPlain(lines[i])
    decreases |lines|
    ensures Run(st, lines) == Stepped(st.(text := st.text + lines), Pass)
  {
    if lines == [] {
      assert st.text + lines == st.text;
    } else {
      PlainTail(lines);
      PlainLineText(st, lines[0]);
      var next := st.(text := st.text + [lines[0]]);
      RegionCollects(next, lines[1..]);
      assert next.text + lines[1..] == st.text + lines;
    }
  }

  /** Outside a region, plain lines change nothing. */
  lemma {:induction false} OutsideIgnored(st: ParserState, lines: seq<string>)
    requires NoModeActive(st) && !st.inConflict
    requires forall i :: 0 <= i < |lines| ==> IsPlain(lines[i])
    decreases |lines|
    ensures Run(st, lines) == Stepped(st, Pass)
  {
    if lines != [] {
      PlainTail(lines);
      PlainLineText(st, lines[0]);
      OutsideIgnored(st, lines[1..]);
    }
  }

  /** Running two pieces of a file one after the other is running the whole file. */
  lemma {:induction false} RunConcat(st: ParserState, a: seq<string>, b: seq<string>)
    decreases |a|
    ensures Run(st, a + b) == if Run(st, a).outcome.Fail? then Run(st, a) else Run(Run(st, a).st, b)
  {
    if a == [] {
      assert a + b == b;
    } else {
      assert (a + b)[0] == a[0];
      assert (a + b)[1..] == a[1..] + b;
      RunConcat(Step(st, a[0]).st, a[1..], b);
    }
  }

  /** A whole conflict branch: its PRE line, its description lines and its POST line write
      the sub-header, then the description scanned from the joined lines, then the POST
      links, and record the subid under the current entry. */
  lemma ConflictBranch(st: ParserState, sub: string, pre: string, body: seq<string>, post: string)
    requires NoModeActive(st) && st.id in st.links
    requires sub == "" || (|sub| == 1 && 'a' <= sub[0] <= 'm')
    requires forall i :: 0 <= i < |body| ==> IsPlain(body[i])
    requires LinksHtml(st.id, pre).Ok? && LinksHtml(st.id, post).Ok?
    requires ScanBody(st.id, BodyText(body)).Ok?
    ensures var r := Run(st, [RecordText(PreLine(sub, pre))] + body + ["POST: " + post]);
      && r.outcome == Pass && !r.st.inConflict && r.st.text == body
      && r.st.links == st.links[st.id := st.links[st.id] + [sub]]
      && r.st.out == st.out + [ConflictSubheader(sub, LinksHtml(st.id, pre).value), DescOpen,
                               ScanBody(st.id, BodyText(body)).value, DivEnd,
                               PostLinks(LinksHtml(st.id, post).value)]
  {
    var l1, l2 := RecordText(PreLine(sub, pre)), "POST: " + post;
    var first := Step(st, l1);
    PreOpens(st, sub, pre);
    RunSingle(st, l1);
    RegionCollects(first.st, body);
    assert first.st.text + body == body;
    RunConcat(st, [l1], body);
    var mid := first.st.(text := body);
    assert Run(st, [l1] + body) == Stepped(mid, Pass);
    PostCloses(mid, post);
    RunSingle(mid, l2);
    RunConcat(st, [l1] + body, [l2]);
    var hp, b, hq := LinksHtml(st.id, pre).value, ScanBody(st.id, BodyText(body)).value,
      LinksHtml(st.id, post).value;
    var fin := Run(st, [l1] + body + [l2]);
    assert fin == Step(mid, l2);
    assert fin.st.out == mid.out + [DescOpen, b, DivEnd, PostLinks(hq)];
    assert mid.out == st.out + [ConflictSubheader(sub, hp)];
    Appended(st.out, ConflictSubheader(sub, hp), DescOpen, b, DivEnd, PostLinks(hq));
  }

  lemma Appended(s: seq<string>, x: string, a: string, b: string, c: string, d: string)
    ensures s + [x] + [a, b, c, d] == s + [x, a, b, c, d]
  {
  }

  /** A one-line run is a step. */
  lemma RunSingle(st: ParserState, line: string)
    ensures Run(st, [line]) == Step(st, line)
  {
    assert [line][1..] == [];
  }

  /** Output is only ever appended to, whatever the line and whether or not it fails. */
  lemma StepExtendsOutput(st: ParserState, line: string)
    ensures st.out <= Step(st, line).st.out
  {
    if ParseDirective(line).Some? {
      DirectiveEffect(st, line);
    } else if NoModeActive(st) {
      RecordDispatch(st, line);
      RecordFrame(st, line);
    } else {
      ModeKeepsStructure(st, line);
    }
  }

  lemma {:induction false} RunExtendsOutput(st: ParserState, lines: seq<string>)
    decreases |lines|
    ensures st.out <= Run(st, lines).st.out
  {
    if lines != [] {
      StepExtendsOutput(st, lines[0]);
      RunExtendsOutput(Step(st, lines[0]).st, lines[1..]);
    }
  }
}
