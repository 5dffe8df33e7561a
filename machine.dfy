/** `process_line` (build.py:106-226) as a transition function on the parser's state, and
    the processing of a whole file as its fold over the lines.  Dispatch is first match
    wins: comment directives, then the active formatting mode in the order paragraph,
    lines, next line, links, then the structural records. */
module Machine {
  import opened Results
  import opened Text
  import opened LinkGrammar
  import opened BodyScanner
  import opened Lines
  import opened Html

  /** The fields of `Parser` (build.py:16-34) and the output written so far, one element
      per write.  A formatting mode is `None` or the tag it was set to. */
  datatype ParserState = ParserState(
    inConflict: bool,
    group: string,
    subgroup: string,
    bclauseId: string,
    bclauseName: string,
    id: string,
    subid: string,
    text: seq<string>,
    links: map<string, seq<string>>,
    formatParagraph: Option<string>,
    formatLines: Option<string>,
    formatNextLine: Option<string>,
    formatLinks: Option<string>,
    blankLine: bool,
    out: seq<string>)

  /** `Parser.__init__`, before anything is written. */
  function Init(): ParserState {
    ParserState(false, "", "", "", "", "", "", [], map[], None, None, None, None, false, [])
  }

  /** The state after a line, and whether the line was converted or stopped the run.  A
      failing line keeps the changes the source makes before it fails. */
  datatype Stepped = Stepped(st: ParserState, outcome: Outcome)

  /** A mode holds when its tag is set and not empty, as Python's truth test decides. */
  predicate Active(m: Option<string>) {
    m.Some? && m.value != ""
  }

  predicate NoModeActive(st: ParserState) {
    !Active(st.formatParagraph) && !Active(st.formatLines) && !Active(st.formatNextLine)
    && !Active(st.formatLinks)
  }

  /** How many of the four mode fields are set. */
  function ModeCount(st: ParserState): nat {
    (if st.formatParagraph.Some? then 1 else 0) + (if st.formatLines.Some? then 1 else 0)
    + (if st.formatNextLine.Some? then 1 else 0) + (if st.formatLinks.Some? then 1 else 0)
  }

  predicate AtMostOneMode(st: ParserState) {
    ModeCount(st) <= 1
  }

  /** Everything outside the formatting modes and the output is the same. */
  predicate SameStructure(a: ParserState, b: ParserState) {
    a.inConflict == b.inConflict && a.group == b.group && a.subgroup == b.subgroup
    && a.bclauseId == b.bclauseId && a.bclauseName == b.bclauseName && a.id == b.id
    && a.subid == b.subid && a.text == b.text && a.links == b.links
  }

  predicate SameModes(a: ParserState, b: ParserState) {
    a.formatParagraph == b.formatParagraph && a.formatLines == b.formatLines
    && a.formatNextLine == b.formatNextLine && a.formatLinks == b.formatLinks
  }

  function ClearModes(st: ParserState): ParserState {
    st.(formatParagraph := None, formatLines := None, formatNextLine := None, formatLinks := None)
  }

  function Write(st: ParserState, s: string): ParserState {
    st.(out := st.out + [s])
  }

  /** A comment line (build.py:108-145): the modes are cancelled first when the line starts
      with `-- FORMAT`, then the directive takes effect. */
  function DirectiveStep(st: ParserState, line: string, d: Directive): ParserState {
    var s := if ClearsModes(line) then ClearModes(st) else st;
    match d
    case BeginLines(t) => Write(s.(formatLines := Some(t)), OpenDiv(t))
    case BeginParagraph(t) => Write(s.(formatParagraph := Some(t)), OpenDiv(t))
    case EndFormat => Write(s, DivEnd)
    case NextLine(t) => s.(formatNextLine := Some(t))
    case LinksLine(t) => s.(formatLinks := Some(t))
    case Rule => Write(s, HorizontalRule)
    case Ignored => s
  }

  /** A line in paragraph mode (build.py:147-156): a blank line closes the paragraph and
      opens the next, unless the previous line did so already; any other line is written
      stripped. */
  function ParagraphStep(st: ParserState, tag: string, line: string): ParserState {
    var s := Strip(line);
    if s == "" then
      if !st.blankLine then Write(st, ParagraphBreak(tag)).(blankLine := true) else st
    else Write(st, Strip(s) + "\n").(blankLine := false)
  }

  /** A line in links mode (build.py:167-175): an optional `(a) ` prefix is kept as `(a)`
      in front of the resolved links of the rest of the line. */
  function LinksModeStep(st: ParserState, tag: string, line: string): Stepped {
    var p := LinksPrefix(line);
    var prefix := if p.Some? then "(" + [p.value.0] + ")" else "";
    var body := if p.Some? then p.value.1 else line;
    var h := LinksHtml(st.id, Strip(body));
    if h.Err? then Stepped(st, Fail(h.error))
    else Stepped(Write(st, TaggedDiv(tag, prefix + h.value)).(formatLinks := None), Pass)
  }

  /** `write_conflict_body` (build.py:278-303): the description block, then the links of
      the `POST:` line. */
  function ConflictBody(st: ParserState, links: string): Stepped {
    var s := Write(st, DescOpen);
    var b := ScanBody(st.id, BodyText(st.text));
    if b.Err? then Stepped(s, Fail(b.error))
    else Stepped(Write(Write(Write(s, b.value), DivEnd), PostLinks(links)), Pass)
  }

  /** A `PRE:` line (build.py:203-215): the region opens with no pending text, the subid
      is recorded under the current entry, which must exist, and the sub-header is written. */
  function PreStep(st: ParserState, sub: string, ls: string): Stepped {
    var s := st.(inConflict := true, text := []);
    if st.id !in st.links then Stepped(s, Fail(UnknownConflict(st.id)))
    else
      var s2 := s.(links := s.links[st.id := s.links[st.id] + [sub]]);
      var h := LinksHtml(st.id, ls);
      if h.Err? then Stepped(s2, Fail(h.error))
      else Stepped(Write(s2, ConflictSubheader(sub, h.value)), Pass)
  }

  /** A `POST:` line (build.py:217-223): only inside a region, which it closes before
      writing the conflict body.  The line itself is not pending text, since the region is
      closed by the time build.py:225 tests it. */
  function PostStep(st: ParserState, ls: string): Stepped {
    if !st.inConflict then Stepped(st, Fail(PostOutsideRegion))
    else
      var s := st.(inConflict := false);
      var h := LinksHtml(st.id, ls);
      if h.Err? then Stepped(s, Fail(h.error)) else ConflictBody(s, h.value)
  }

  /** What a structural record does to the state (build.py:177-226); `line` is the line
      it was read from, kept as pending text inside a region. */
  function RecordEffect(st: ParserState, line: string, r: Record): Stepped {
    match r
    case GroupLine(n) => Stepped(st.(group := n), Pass)
    case SubgroupLine(n) =>
      Stepped(Write(Write(st.(subgroup := n), GroupHeader(st.group)), SubgroupHeader(n)), Pass)
    case BClauseLine(i, n) =>
      Stepped(Write(st.(bclauseId := i, bclauseName := n), BClauseHeader(i, n)), Pass)
    case ConflictLine(i) =>
      Stepped(Write(st.(id := i, links := st.links[i := []]), ConflictHeader(i)), Pass)
    case PreLine(sub, ls) => PreStep(st, sub, ls)
    case PostLine(ls) => PostStep(st, ls)
    case PlainLine =>
      Stepped(if st.inConflict then st.(text := st.text + [line]) else st, Pass)
  }

  /** A line outside every mode. */
  function RecordStep(st: ParserState, line: string): Stepped {
    RecordEffect(st, line, ParseRecord(line))
  }

  /** `process_line`. */
  function Step(st: ParserState, line: string): Stepped {
    var d := ParseDirective(line);
    if d.Some? then Stepped(DirectiveStep(st, line, d.value), Pass)
    else if Active(st.formatParagraph) then
      Stepped(ParagraphStep(st, st.formatParagraph.value, line), Pass)
    else if Active(st.formatLines) then Stepped(Write(st, BrokenLine(Strip(line))), Pass)
    else if Active(st.formatNextLine) then
      Stepped(Write(st, TaggedDiv(st.formatNextLine.value, Strip(line))).(formatNextLine := None), Pass)
    else if Active(st.formatLinks) then LinksModeStep(st, st.formatLinks.value, line)
    else RecordStep(st, line)
  }

  /** The lines of a file processed in order; the first failing line ends the run. */
  function Run(st: ParserState, lines: seq<string>): Stepped
    decreases |lines|
  {
    if lines == [] then Stepped(st, Pass)
    else
      var r := Step(st, lines[0]);
      if r.outcome.Fail? then r else Run(r.st, lines[1..])
  }
}
