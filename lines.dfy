/** The line patterns of `process_line` (build.py:106-226), each matched by hand: the
    comment directives, the structural records, and the optional `(a)`-style prefix of a
    links-mode line.  Lines carry no line terminator, so `.` is any character and `$` is
    the end of the line. */
module Lines {
  import opened Results
  import opened Text

  /** What a line starting with `--` asks for (build.py:108-145). */
  datatype Directive =
    | BeginLines(tag: string)      // `-- FORMAT_BEGIN_LINES:<tag>`
    | BeginParagraph(tag: string)  // `-- FORMAT_BEGIN:<tag>`
    | EndFormat                    // `-- FORMAT_END...`
    | NextLine(tag: string)        // `-- FORMAT:<tag>`
    | LinksLine(tag: string)       // `-- FORMAT_LINKS:<tag>`
    | Rule                         // `-- HR...`
    | Ignored                      // any other comment

  /** The part of `line` after `prefix`. */
  function After(line: string, prefix: string): (r: string)
    requires StartsWith(line, prefix)
    ensures line == prefix + r
  {
    assert line == line[..|prefix|] + line[|prefix|..];
    line[|prefix|..]
  }

  /** A line starting with `-- FORMAT` cancels every formatting mode before anything else
      is looked at (build.py:110-116). */
  predicate ClearsModes(line: string) {
    StartsWith(line, "-- FORMAT")
  }

  /** The directive of a comment line, tried in the order of the source; no directive
      exactly when the line does not start with `--`. */
  function ParseDirective(line: string): (d: Option<Directive>)
    ensures d.None? <==> !StartsWith(line, "--")
    ensures d.Some? && d.value.BeginLines? ==> line == "-- FORMAT_BEGIN_LINES:" + d.value.tag
    ensures d.Some? && d.value.BeginParagraph? ==> line == "-- FORMAT_BEGIN:" + d.value.tag
    ensures d.Some? && d.value.NextLine? ==> line == "-- FORMAT:" + d.value.tag
    ensures d.Some? && d.value.LinksLine? ==> line == "-- FORMAT_LINKS:" + d.value.tag
    ensures d == Some(EndFormat) <==> StartsWith(line, "-- FORMAT_END")
    ensures d == Some(Rule) <==> StartsWith(line, "-- HR")
  {
    KeywordLeads(line);
    if !StartsWith(line, "--") then None
    else if StartsWith(line, "-- FORMAT_BEGIN_LINES:") then
      Some(BeginLines(After(line, "-- FORMAT_BEGIN_LINES:")))
    else if StartsWith(line, "-- FORMAT_BEGIN:") then
      Some(BeginParagraph(After(line, "-- FORMAT_BEGIN:")))
    else if StartsWith(line, "-- FORMAT_END") then Some(EndFormat)
    else if StartsWith(line, "-- FORMAT:") then Some(NextLine(After(line, "-- FORMAT:")))
    else if StartsWith(line, "-- FORMAT_LINKS:") then
      Some(LinksLine(After(line, "-- FORMAT_LINKS:")))
    else if StartsWith(line, "-- HR") then Some(Rule)
    else Some(Ignored)
  }

  /** A line led by `-- FORMAT_END` or `-- HR` is a comment that no earlier keyword claims. */
  lemma KeywordLeads(line: string)
    ensures StartsWith(line, "-- FORMAT_END") ==>
      (StartsWith(line, "--") && !StartsWith(line, "-- FORMAT_BEGIN_LINES:")
       && !StartsWith(line, "-- FORMAT_BEGIN:"))
    ensures StartsWith(line, "-- HR") ==>
      (StartsWith(line, "--") && !StartsWith(line, "-- FORMAT_BEGIN_LINES:")
       && !StartsWith(line, "-- FORMAT_BEGIN:") && !StartsWith(line, "-- FORMAT_END")
       && !StartsWith(line, "-- FORMAT:") && !StartsWith(line, "-- FORMAT_LINKS:"))
  {
    if StartsWith(line, "-- FORMAT_END") {
      assert line[..2] == "--";
      Differs(line, "-- FORMAT_END", "-- FORMAT_BEGIN_LINES:", 10);
      Differs(line, "-- FORMAT_END", "-- FORMAT_BEGIN:", 10);
    }
    if StartsWith(line, "-- HR") {
      assert line[..2] == "--";
      Differs(line, "-- HR", "-- FORMAT_BEGIN_LINES:", 3);
      Differs(line, "-- HR", "-- FORMAT_BEGIN:", 3);
      Differs(line, "-- HR", "-- FORMAT_END", 3);
      Differs(line, "-- HR", "-- FORMAT:", 3);
      Differs(line, "-- HR", "-- FORMAT_LINKS:", 3);
    }
  }

  /** `prefix + rest` starts with `prefix`, and `rest` is what follows it. */
  lemma PrefixOf(prefix: string, rest: string)
    ensures StartsWith(prefix + rest, prefix)
    ensures (prefix + rest)[|prefix|..] == rest
  {
    assert (prefix + rest)[..|prefix|] == prefix;
  }

  /** The source line a directive is written as: the inverse of `ParseDirective`. */
  function DirectiveText(d: Directive): string {
    match d
    case BeginLines(t) => "-- FORMAT_BEGIN_LINES:" + t
    case BeginParagraph(t) => "-- FORMAT_BEGIN:" + t
    case EndFormat => "-- FORMAT_END"
    case NextLine(t) => "-- FORMAT:" + t
    case LinksLine(t) => "-- FORMAT_LINKS:" + t
    case Rule => "-- HR"
    case Ignored => "--"
  }

  /** A line starting with `p` does not start with a `q` that differs from `p` at `j`. */
  lemma Differs(line: string, p: string, q: string, j: nat)
    requires StartsWith(line, p) && j < |p| && j < |q| && p[j] != q[j]
    ensures !StartsWith(line, q)
  {
    assert line[j] == p[j];
  }

  /** Every directive is read back from the line it is written as.  A tag may be any text,
      however it starts. */
  lemma DirectiveRoundTrip(d: Directive)
    ensures ParseDirective(DirectiveText(d)) == Some(d)
  {
    match d
    case BeginLines(t) => BeginLinesOf(t);
    case BeginParagraph(t) => BeginParagraphOf(t);
    case EndFormat =>
    case NextLine(t) => NextLineOf(t);
    case LinksLine(t) => LinksLineOf(t);
    case Rule =>
    case Ignored =>
  }

  /** A line written as `lead + t`, where `lead` is a comment lead. */
  lemma CommentOf(lead: string, t: string)
    requires StartsWith(lead, "--")
    ensures StartsWith(lead + t, "--") && StartsWith(lead + t, lead) && After(lead + t, lead) == t
  {
    PrefixOf(lead, t);
    assert (lead + t)[..2] == lead[..2];
  }

  lemma BeginLinesOf(t: string)
    ensures ParseDirective("-- FORMAT_BEGIN_LINES:" + t) == Some(BeginLines(t))
  {
    CommentOf("-- FORMAT_BEGIN_LINES:", t);
  }

  lemma BeginParagraphOf(t: string)
    ensures ParseDirective("-- FORMAT_BEGIN:" + t) == Some(BeginParagraph(t))
  {
    var line := "-- FORMAT_BEGIN:" + t;
    CommentOf("-- FORMAT_BEGIN:", t);
    Differs(line, "-- FORMAT_BEGIN:", "-- FORMAT_BEGIN_LINES:", 15);
  }

  lemma NextLineOf(t: string)
    ensures ParseDirective("-- FORMAT:" + t) == Some(NextLine(t))
  {
    var line := "-- FORMAT:" + t;
    CommentOf("-- FORMAT:", t);
    Differs(line, "-- FORMAT:", "-- FORMAT_BEGIN_LINES:", 9);
    Differs(line, "-- FORMAT:", "-- FORMAT_BEGIN:", 9);
    Differs(line, "-- FORMAT:", "-- FORMAT_END", 9);
  }

  lemma LinksLineOf(t: string)
    ensures ParseDirective("-- FORMAT_LINKS:" + t) == Some(LinksLine(t))
  {
    var line := "-- FORMAT_LINKS:" + t;
    CommentOf("-- FORMAT_LINKS:", t);
    Differs(line, "-- FORMAT_LINKS:", "-- FORMAT_BEGIN_LINES:", 10);
    Differs(line, "-- FORMAT_LINKS:", "-- FORMAT_BEGIN:", 10);
    Differs(line, "-- FORMAT_LINKS:", "-- FORMAT_END", 10);
    Differs(line, "-- FORMAT_LINKS:", "-- FORMAT:", 9);
  }

  /** The directive lines that cancel the formatting modes are exactly the five `FORMAT`
      ones, plus any other comment that happens to start with `-- FORMAT`. */
  lemma ClearingDirectives(line: string)
    requires ParseDirective(line).Some?
    ensures var d := ParseDirective(line).value;
      (d.BeginLines? || d.BeginParagraph? || d == EndFormat || d.NextLine? || d.LinksLine?) ==>
        ClearsModes(line)
    ensures ParseDirective(line) == Some(Rule) ==> !ClearsModes(line)
  {
    var d := ParseDirective(line).value;
    if d.BeginLines? || d.BeginParagraph? || d == EndFormat || d.NextLine? || d.LinksLine? {
      assert line[..9] == "-- FORMAT";
    }
    if d == Rule {
      assert line[3] == 'H';
    }
  }

  /** A structural line (build.py:177-226); `PlainLine` is a line no pattern matches. */
  datatype Record =
    | GroupLine(name: string)                  // `ConflictGroup{<name>}`
    | SubgroupLine(name: string)               // `ConflictSubGroup{<name>}`
    | BClauseLine(id: string, name: string)    // `B{<digits>} <name>`
    | ConflictLine(id: string)                 // `Conflict{<digits>}`
    | PreLine(subid: string, links: string)    // `[(<a-m>) ]PRE: <links>`
    | PostLine(links: string)                  // `POST: <links>`
    | PlainLine

  /** `^<lead>(.+)}$`: the non-empty text between `lead` and a final `}`. */
  function Braced(line: string, lead: string): (r: Option<string>)
    ensures r.Some? ==> r.value != [] && line == lead + r.value + "}"
    ensures r.None? ==> !StartsWith(line, lead) || |line| < |lead| + 2 || line[|line| - 1] != '}'
  {
    if StartsWith(line, lead) && |line| >= |lead| + 2 && line[|line| - 1] == '}' then
      var name := line[|lead|..|line| - 1];
      assert line == line[..|lead|] + name + [line[|line| - 1]];
      Some(name)
    else None
  }

  /** `^B{(\d+)} (.*)$`.  The digit run cannot stop early, since a `}` must follow it. */
  function BClauseMatch(line: string): (r: Option<(string, string)>)
    ensures r.Some? ==> r.value.0 != [] && AllDigits(r.value.0) && line == "B{" + r.value.0 + "} " + r.value.1
  {
    if !StartsWith(line, "B{") then None
    else
      var rest := After(line, "B{");
      var d := LeadingDigits(rest);
      if d != [] && StartsWith(rest[|d|..], "} ") then
        var name := After(rest[|d|..], "} ");
        assert rest == d + rest[|d|..];
        Some((d, name))
      else None
  }

  /** `^Conflict{(\d+)}$`. */
  function ConflictMatch(line: string): (r: Option<string>)
    ensures r.Some? ==> r.value != [] && AllDigits(r.value) && line == "Conflict{" + r.value + "}"
  {
    if !StartsWith(line, "Conflict{") then None
    else
      var rest := After(line, "Conflict{");
      var d := LeadingDigits(rest);
      if d != [] && rest == d + "}" then Some(d) else None
  }

  /** `^(\((?P<subid>[a-m])\) )?PRE: (?P<links>.*)$`, with an absent subid read as `""`. */
  function PreMatch(line: string): (r: Option<(string, string)>)
    ensures r.Some? && r.value.0 == "" ==> line == "PRE: " + r.value.1
    ensures r.Some? && r.value.0 != "" ==>
      |r.value.0| == 1 && 'a' <= r.value.0[0] <= 'm' && line == "(" + r.value.0 + ") PRE: " + r.value.1
  {
    if |line| >= 4 && line[0] == '(' && 'a' <= line[1] <= 'm' && line[2] == ')' && line[3] == ' '
       && StartsWith(line[4..], "PRE: ")
    then
      var links := After(line[4..], "PRE: ");
      assert line == line[..4] + line[4..];
      assert line[..4] == "(" + [line[1]] + ") ";
      Some(([line[1]], links))
    else if StartsWith(line, "PRE: ") then Some(("", After(line, "PRE: ")))
    else None
  }

  /** The record a line is, tried in the order of the source. */
  function ParseRecord(line: string): (r: Record)
    ensures r.GroupLine? ==> r.name != [] && line == "ConflictGroup{" + r.name + "}"
    ensures r.SubgroupLine? ==> r.name != [] && line == "ConflictSubGroup{" + r.name + "}"
    ensures r.BClauseLine? ==> r.id != [] && AllDigits(r.id) && line == "B{" + r.id + "} " + r.name
    ensures r.ConflictLine? ==> r.id != [] && AllDigits(r.id) && line == "Conflict{" + r.id + "}"
    ensures r.PreLine? ==> line == (if r.subid == "" then "" else "(" + r.subid + ") ") + "PRE: " + r.links
    ensures r.PreLine? ==> r.subid == "" || (|r.subid| == 1 && 'a' <= r.subid[0] <= 'm')
    ensures r.PostLine? ==> line == "POST: " + r.links
  {
    var g := Braced(line, "ConflictGroup{");
    var s := Braced(line, "ConflictSubGroup{");
    var b := BClauseMatch(line);
    var c := ConflictMatch(line);
    var p := PreMatch(line);
    if g.Some? then GroupLine(g.value)
    else if s.Some? then SubgroupLine(s.value)
    else if b.Some? then BClauseLine(b.value.0, b.value.1)
    else if c.Some? then ConflictLine(c.value)
    else if p.Some? then PreLine(p.value.0, p.value.1)
    else if StartsWith(line, "POST: ") then PostLine(After(line, "POST: "))
    else PlainLine
  }

  /** A record that some line can be: names non-empty, ids digit strings, subids one
      letter from `a` to `m` or absent. */
  predicate WellFormed(r: Record) {
    match r
    case GroupLine(n) => n != []
    case SubgroupLine(n) => n != []
    case BClauseLine(i, _) => i != [] && AllDigits(i)
    case ConflictLine(i) => i != [] && AllDigits(i)
    case PreLine(sub, _) => sub == "" || (|sub| == 1 && 'a' <= sub[0] <= 'm')
    case PostLine(_) => true
    case PlainLine => false
  }

  /** The line a record is written as: the inverse of `ParseRecord`. */
  function RecordText(r: Record): string
    requires WellFormed(r)
  {
    match r
    case GroupLine(n) => "ConflictGroup{" + n + "}"
    case SubgroupLine(n) => "ConflictSubGroup{" + n + "}"
    case BClauseLine(i, n) => "B{" + i + "} " + n
    case ConflictLine(i) => "Conflict{" + i + "}"
    case PreLine(sub, ls) => (if sub == "" then "" else "(" + sub + ") ") + "PRE: " + ls
    case PostLine(ls) => "POST: " + ls
  }

  /** Every well-formed record is read back from the line it is written as; so a line that
      reads as `PlainLine` is written as no record at all. */
  lemma RecordRoundTrip(r: Record)
    requires WellFormed(r)
    ensures ParseRecord(RecordText(r)) == r
  {
    match r
    case GroupLine(n) => GroupOf(n);
    case SubgroupLine(n) => SubgroupOf(n);
    case BClauseLine(i, n) => BClauseOf(i, n);
    case ConflictLine(i) => ConflictOf(i);
    case PreLine(sub, ls) => PreOf(sub, ls);
    case PostLine(ls) => PostOf(ls);
  }

  lemma BracedOf(lead: string, n: string)
    requires n != []
    ensures Braced(lead + n + "}", lead) == Some(n)
  {
    var line := lead + n + "}";
    PrefixOf(lead, n + "}");
    assert line == lead + (n + "}");
    assert line[|lead|..|line| - 1] == n;
  }

  lemma GroupOf(n: string)
    requires n != []
    ensures ParseRecord("ConflictGroup{" + n + "}") == GroupLine(n)
  {
    BracedOf("ConflictGroup{", n);
  }

  lemma SubgroupOf(n: string)
    requires n != []
    ensures ParseRecord("ConflictSubGroup{" + n + "}") == SubgroupLine(n)
  {
    var line := "ConflictSubGroup{" + n + "}";
    BracedOf("ConflictSubGroup{", n);
    Differs(line, "ConflictSubGroup{", "ConflictGroup{", 8);
  }

  lemma BClauseOf(i: string, n: string)
    requires i != [] && AllDigits(i)
    ensures ParseRecord("B{" + i + "} " + n) == BClauseLine(i, n)
  {
    var line := "B{" + i + "} " + n;
    assert line == "B{" + (i + "} " + n);
    PrefixOf("B{", i + "} " + n);
    Differs(line, "B{", "ConflictGroup{", 0);
    Differs(line, "B{", "ConflictSubGroup{", 0);
    assert i + "} " + n == i + ("} " + n);
    LeadingDigitsOf(i, "} " + n);
    assert (i + ("} " + n))[|i|..] == "} " + n;
    PrefixOf("} ", n);
  }

  lemma ConflictOf(i: string)
    requires i != [] && AllDigits(i)
    ensures ParseRecord("Conflict{" + i + "}") == ConflictLine(i)
  {
    var line := "Conflict{" + i + "}";
    assert line == "Conflict{" + (i + "}");
    PrefixOf("Conflict{", i + "}");
    Differs(line, "Conflict{", "ConflictGroup{", 8);
    Differs(line, "Conflict{", "ConflictSubGroup{", 8);
    Differs(line, "Conflict{", "B{", 0);
    LeadingDigitsOf(i, "}");
  }

  lemma PreOf(sub: string, ls: string)
    requires sub == "" || (|sub| == 1 && 'a' <= sub[0] <= 'm')
    ensures ParseRecord((if sub == "" then "" else "(" + sub + ") ") + "PRE: " + ls) == PreLine(sub, ls)
  {
    var line := (if sub == "" then "" else "(" + sub + ") ") + "PRE: " + ls;
    if sub == "" {
      assert line == "PRE: " + ls;
      PrefixOf("PRE: ", ls);
      Differs(line, "PRE: ", "ConflictGroup{", 0);
      Differs(line, "PRE: ", "ConflictSubGroup{", 0);
      Differs(line, "PRE: ", "B{", 0);
      Differs(line, "PRE: ", "Conflict{", 0);
    } else {
      var lead := "(" + sub + ") ";
      assert line == lead + ("PRE: " + ls);
      PrefixOf(lead, "PRE: " + ls);
      PrefixOf("PRE: ", ls);
      Differs(line, lead, "ConflictGroup{", 0);
      Differs(line, lead, "ConflictSubGroup{", 0);
      Differs(line, lead, "B{", 0);
      Differs(line, lead, "Conflict{", 0);
      assert [line[1]] == sub;
    }
  }

  lemma PostOf(ls: string)
    ensures ParseRecord("POST: " + ls) == PostLine(ls)
  {
    var line := "POST: " + ls;
    PrefixOf("POST: ", ls);
    Differs(line, "POST: ", "ConflictGroup{", 0);
    Differs(line, "POST: ", "ConflictSubGroup{", 0);
    Differs(line, "POST: ", "B{", 0);
    Differs(line, "POST: ", "Conflict{", 0);
    Differs(line, "POST: ", "PRE: ", 1);
  }

  /** `^\s*\(([a-d])\) (.*)$`: the letter of an optional `(a) `-style prefix, after any
      leading whitespace, and the text that follows it. */
  function LinksPrefix(line: string): (r: Option<(char, string)>)
    ensures r.Some? ==> 'a' <= r.value.0 <= 'd' && TrimLeft(line) == "(" + [r.value.0] + ") " + r.value.1
  {
    var t := TrimLeft(line);
    if |t| >= 4 && t[0] == '(' && 'a' <= t[1] <= 'd' && t[2] == ')' && t[3] == ' ' then
      assert t == t[..4] + t[4..];
      Some((t[1], t[4..]))
    else None
  }

  /** Leading whitespace is skipped up to the first other character. */
  lemma {:induction false} TrimLeftSpaces(ws: string, x: string)
    requires forall i :: 0 <= i < |ws| ==> IsSpace(ws[i])
    requires x == [] || !IsSpace(x[0])
    ensures TrimLeft(ws + x) == x
    decreases |ws|
  {
    if ws == [] {
      assert ws + x == x;
    } else {
      assert (ws + x)[1..] == ws[1..] + x;
      TrimLeftSpaces(ws[1..], x);
    }
  }

  /** Any such prefix is found, however much whitespace precedes it. */
  lemma LinksPrefixOf(ws: string, c: char, rest: string)
    requires forall i :: 0 <= i < |ws| ==> IsSpace(ws[i])
    requires 'a' <= c <= 'd'
    ensures LinksPrefix(ws + "(" + [c] + ") " + rest) == Some((c, rest))
  {
    var x := "(" + [c] + ") " + rest;
    assert ws + "(" + [c] + ") " + rest == ws + x;
    TrimLeftSpaces(ws, x);
    assert x[4..] == rest;
  }
}
