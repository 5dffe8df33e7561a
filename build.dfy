/** The converter object of build.py (`class Parser`, build.py:13-311): its fields are
    updated in place line by line, and every method is proved to move the object's state
    exactly as the transition functions of `Machine` say. */
module Build {
  import opened Results
  import opened Text
  import opened LinkGrammar
  import opened BodyScanner
  import opened Lines
  import opened Html
  import opened Machine
  import Protocol

  class Parser {
    var inConflict: bool
    var group: string
    var subgroup: string
    var bclauseId: string
    var bclauseName: string
    var id: string
    var subid: string
    var text: seq<string>
    var links: map<string, seq<string>>
    var formatParagraph: Option<string>
    var formatLines: Option<string>
    var formatNextLine: Option<string>
    var formatLinks: Option<string>
    var blankLine: bool
    /** What has been written to the output file, one element per write. */
    var out: seq<string>

    function State(): ParserState
      reads this
    {
      ParserState(inConflict, group, subgroup, bclauseId, bclauseName, id, subid, text, links,
        formatParagraph, formatLines, formatNextLine, formatLinks, blankLine, out)
    }

    /** `__init__`, with nothing written yet. */
    constructor()
      ensures State() == Init()
    {
      inConflict := false;
      group, subgroup := "", "";
      bclauseId, bclauseName, id, subid := "", "", "", "";
      text, links := [], map[];
      formatParagraph, formatLines, formatNextLine, formatLinks := None, None, None, None;
      blankLine := false;
      out := [];
    }

    /** `self.outfile.write(s)`. */
    method Emit(s: string)
      modifies this
      ensures State() == Write(old(State()), s)
    {
      out := out + [s];
    }

    /** Every formatting mode cancelled, as a `-- FORMAT` line does first (build.py:110-116). */
    method ClearFormats()
      modifies this
      ensures State() == ClearModes(old(State()))
    {
      formatParagraph, formatLines, formatNextLine, formatLinks := None, None, None, None;
    }

    /** The comment branch of `process_line` (build.py:108-145). */
    method ApplyDirective(line: string, d: Directive)
      modifies this
      ensures State() == DirectiveStep(old(State()), line, d)
    {
      if ClearsModes(line) {
        ClearFormats();
      }
      match d {
        case BeginLines(t) =>
          formatLines := Some(t);
          Emit(OpenDiv(t));
        case BeginParagraph(t) =>
          formatParagraph := Some(t);
          Emit(OpenDiv(t));
        case EndFormat =>
          Emit(DivEnd);
        case NextLine(t) =>
          formatNextLine := Some(t);
        case LinksLine(t) =>
          formatLinks := Some(t);
        case Rule =>
          Emit(HorizontalRule);
        case Ignored =>
      }
    }

    /** Paragraph mode (build.py:147-156). */
    method ParagraphMode(tag: string, line: string)
      modifies this
      ensures State() == ParagraphStep(old(State()), tag, line)
    {
      var s := Strip(line);
      if s == "" {
        if !blankLine {
          Emit(ParagraphBreak(tag));
          blankLine := true;
        }
      } else {
        Emit(Strip(s) + "\n");
        blankLine := false;
      }
    }

    /** Links mode (build.py:167-175). */
    method LinksMode(tag: string, line: string) returns (o: Outcome)
      modifies this
      ensures Stepped(State(), o) == LinksModeStep(old(State()), tag, line)
    {
      var prefix, body := "", line;
      var m := LinksPrefix(line);
      if m.Some? {
        prefix := "(" + [m.value.0] + ")";
        body := m.value.1;
      }
      var h := ParseLinks(id, Strip(body));
      if h.Err? {
        return Fail(h.error);
      }
      Emit(TaggedDiv(tag, prefix + h.value));
      formatLinks := None;
      return Pass;
    }

    /** `write_conflict_body` (build.py:278-303). */
    method WriteConflictBody(hlinks: string) returns (o: Outcome)
      modifies this
      ensures Stepped(State(), o) == ConflictBody(old(State()), hlinks)
    {
      Emit(DescOpen);
      var newText := ScanText(id, BodyText(text));
      if newText.Err? {
        return Fail(newText.error);
      }
      Emit(newText.value);
      Emit(DivEnd);
      Emit(PostLinks(hlinks));
      return Pass;
    }

    /** The `PRE:` branch (build.py:203-215). */
    method ProcessPre(sub: string, ls: string) returns (o: Outcome)
      modifies this
      ensures Stepped(State(), o) == PreStep(old(State()), sub, ls)
    {
      inConflict := true;
      text := [];
      if id !in links {
        return Fail(UnknownConflict(id));
      }
      links := links[id := links[id] + [sub]];
      var hlinks := ParseLinks(id, ls);
      if hlinks.Err? {
        return Fail(hlinks.error);
      }
      Emit(ConflictSubheader(sub, hlinks.value));
      return Pass;
    }

    /** The `POST:` branch (build.py:217-223). */
    method ProcessPost(ls: string) returns (o: Outcome)
      modifies this
      ensures Stepped(State(), o) == PostStep(old(State()), ls)
    {
      if !inConflict {
        return Fail(PostOutsideRegion);
      }
      inConflict := false;
      var hlinks := ParseLinks(id, ls);
      if hlinks.Err? {
        return Fail(hlinks.error);
      }
      o := WriteConflictBody(hlinks.value);
    }

    /** A `ConflictSubGroup{...}` line (build.py:182-187): both headers are written. */
    method EnterSubgroup(n: string)
      modifies this
      ensures State() == Write(Write(old(State()).(subgroup := n), GroupHeader(old(group))), SubgroupHeader(n))
    {
      subgroup := n;
      Emit(GroupHeader(group));
      Emit(SubgroupHeader(subgroup));
    }

    /** A `B{...}` line (build.py:189-194). */
    method EnterBClause(i: string, n: string)
      modifies this
      ensures State() == Write(old(State()).(bclauseId := i, bclauseName := n), BClauseHeader(i, n))
    {
      bclauseId, bclauseName := i, n;
      Emit(BClauseHeader(bclauseId, bclauseName));
    }

    /** A `Conflict{...}` line (build.py:196-201): the entry starts with no subids. */
    method EnterConflict(i: string)
      modifies this
      ensures State() == Write(old(State()).(id := i, links := old(links)[i := []]), ConflictHeader(i))
    {
      id := i;
      links := links[id := []];
      Emit(ConflictHeader(id));
    }

    /** The effect of one structural record (build.py:177-226). */
    method ApplyRecord(line: string, r: Record) returns (o: Outcome)
      modifies this
      ensures Stepped(State(), o) == RecordEffect(old(State()), line, r)
    {
      match r {
        case GroupLine(n) =>
          group := n;
          o := Pass;
        case SubgroupLine(n) =>
          EnterSubgroup(n);
          o := Pass;
        case BClauseLine(i, n) =>
          EnterBClause(i, n);
          o := Pass;
        case ConflictLine(i) =>
          EnterConflict(i);
          o := Pass;
        case PreLine(sub, ls) =>
          o := ProcessPre(sub, ls);
        case PostLine(ls) =>
          o := ProcessPost(ls);
        case PlainLine =>
          if inConflict {
            text := text + [line];
          }
          o := Pass;
      }
    }

    /** The structural branches of `process_line` (build.py:177-226). */
    method ProcessRecord(line: string) returns (o: Outcome)
      modifies this
      ensures Stepped(State(), o) == RecordStep(old(State()), line)
    {
      o := ApplyRecord(line, ParseRecord(line));
    }

    /** `process_line`. */
    method ProcessLine(line: string) returns (o: Outcome)
      modifies this
      ensures Stepped(State(), o) == Step(old(State()), line)
    {
      var d := ParseDirective(line);
      if d.Some? {
        Protocol.CommentDispatch(State(), line);
        ApplyDirective(line, d.value);
        return Pass;
      }
      if Active(formatParagraph) {
        ParagraphMode(formatParagraph.value, line);
        return Pass;
      }
      if Active(formatLines) {
        Emit(BrokenLine(Strip(line)));
        return Pass;
      }
      if Active(formatNextLine) {
        Emit(TaggedDiv(formatNextLine.value, Strip(line)));
        formatNextLine := None;
        return Pass;
      }
      if Active(formatLinks) {
        o := LinksMode(formatLinks.value, line);
        return;
      }
      Protocol.RecordDispatch(State(), line);
      o := ProcessRecord(line);
    }

    /** The loop of `process` (build.py:329-330) over the lines of the input; the first
        failing line ends it. */
    method ProcessLines(lines: seq<string>) returns (o: Outcome)
      modifies this
      ensures Stepped(State(), o) == Run(old(State()), lines)
    {
      var i := 0;
      while i < |lines|
        invariant 0 <= i <= |lines|
        invariant Run(old(State()), lines) == Run(State(), lines[i..])
      {
        assert lines[i..][0] == lines[i] && lines[i..][1..] == lines[i + 1..];
        o := ProcessLine(lines[i]);
        if o.Fail? {
          return;
        }
        i := i + 1;
      }
      assert lines[i..] == [];
      return Pass;
    }
  }
}
