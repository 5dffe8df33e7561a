/** The HTML fragments the converter writes (build.py:260-276 and the literal fragments of
    `process_line` and `write_conflict_body`).  Each formatter wraps its arguments in fixed
    markup; `Inner` takes the markup off again, and each formatter is stated through it. */
module Html {
  import opened Results
  import opened Text

  const DivEnd := "</div>\n"
  const GroupOpen := "\n<div class=\"group\">"
  const SubgroupOpen := "\n<div class=\"subgroup\">"
  const BClauseOpen := "\n<div class=\"bclause\">"
  const ConflictOpen := "\n<div class=\"conflictid\" id=\""
  const PreOpen := "\n<div class=\"prelinks\">"
  const SubidOpen := "<span class=\"subid\">"
  const HorizontalRule := "<hr/>\n"
  const DescOpen := "<div class=\"desc\">"
  const PostOpen := "<div class=\"postlinks\">"

  /** The text between `open` and `close`, when `s` starts with the one and ends with the
      other (and they do not overlap). */
  function Inner(s: string, open: string, close: string): (r: Option<string>)
    ensures r.Some? ==> s == open + r.value + close
  {
    if |open| + |close| <= |s| && s[..|open|] == open && s[|s| - |close|..] == close then
      var c := s[|open|..|s| - |close|];
      assert s == s[..|open|] + c + s[|s| - |close|..];
      Some(c)
    else None
  }

  /** `Inner` undoes the wrapping. */
  lemma InnerOf(open: string, content: string, close: string)
    ensures Inner(open + content + close, open, close) == Some(content)
  {
    var s := open + content + close;
    assert s[..|open|] == open;
    assert s[|s| - |close|..] == close;
    assert s[|open|..|s| - |close|] == content;
  }

  /** `write_group_header`. */
  function GroupHeader(name: string): (r: string)
    ensures Inner(r, GroupOpen, DivEnd) == Some(name)
  {
    InnerOf(GroupOpen, name, DivEnd);
    GroupOpen + name + DivEnd
  }

  /** `write_subgroup_header`. */
  function SubgroupHeader(name: string): (r: string)
    ensures Inner(r, SubgroupOpen, DivEnd) == Some(name)
  {
    InnerOf(SubgroupOpen, name, DivEnd);
    SubgroupOpen + name + DivEnd
  }

  /** `write_bclause_header`: the id in parentheses, a space, then the name. */
  function BClauseHeader(id: string, name: string): (r: string)
    ensures Inner(r, BClauseOpen, DivEnd) == Some("(" + id + ") " + name)
  {
    InnerOf(BClauseOpen, "(" + id + ") " + name, DivEnd);
    BClauseOpen + ("(" + id + ") " + name) + DivEnd
  }

  /** `write_conflict_header`: the id is both the anchor and the visible text. */
  function ConflictHeader(id: string): (r: string)
    ensures Inner(r, ConflictOpen, DivEnd) == Some(id + "\">" + id)
  {
    InnerOf(ConflictOpen, id + "\">" + id, DivEnd);
    ConflictOpen + (id + "\">" + id) + DivEnd
  }

  /** The subid marker in front of a PRE line's links; nothing for an absent subid. */
  function SubidPrefix(subid: string): (r: string)
    ensures subid == "" <==> r == ""
    ensures subid != "" ==> Inner(r, SubidOpen, "</span> ") == Some(subid)
  {
    if subid != "" then
      InnerOf(SubidOpen, subid, "</span> ");
      SubidOpen + subid + "</span> "
    else ""
  }

  /** `write_conflict_subheader`. */
  function ConflictSubheader(subid: string, links: string): (r: string)
    ensures Inner(r, PreOpen, DivEnd) == Some(SubidPrefix(subid) + links)
  {
    InnerOf(PreOpen, SubidPrefix(subid) + links, DivEnd);
    PreOpen + (SubidPrefix(subid) + links) + DivEnd
  }

  /** `<div class="tag">` on a line of its own, as `FORMAT_BEGIN` and `FORMAT_BEGIN_LINES`
      write it. */
  function OpenDiv(tag: string): (r: string)
    ensures Inner(r, "<div class=\"", "\">\n") == Some(tag)
  {
    InnerOf("<div class=\"", tag, "\">\n");
    "<div class=\"" + tag + "\">\n"
  }

  /** The paragraph separator of paragraph mode: close the block and open another. */
  function ParagraphBreak(tag: string): (r: string)
    ensures Inner(r, "</div><div class=\"", "\">\n") == Some(tag)
  {
    InnerOf("</div><div class=\"", tag, "\">\n");
    "</div><div class=\"" + tag + "\">\n"
  }

  /** A one-line block, as next-line and links modes write it. */
  function TaggedDiv(tag: string, content: string): (r: string)
    ensures Inner(r, "<div class=\"", DivEnd) == Some(tag + "\">" + content)
  {
    InnerOf("<div class=\"", tag + "\">" + content, DivEnd);
    "<div class=\"" + (tag + "\">" + content) + DivEnd
  }

  /** A line of lines mode. */
  function BrokenLine(s: string): (r: string)
    ensures Inner(r, "", "<br/>\n") == Some(s)
  {
    InnerOf("", s, "<br/>\n");
    assert "" + s + "<br/>\n" == s + "<br/>\n";
    s + "<br/>\n"
  }

  /** The closing block of a conflict body. */
  function PostLinks(links: string): (r: string)
    ensures Inner(r, PostOpen, DivEnd) == Some(links)
  {
    InnerOf(PostOpen, links, DivEnd);
    PostOpen + links + DivEnd
  }

  /** Different conflict ids give different headers. */
  lemma ConflictHeaderInjective(a: string, b: string)
    requires ConflictHeader(a) == ConflictHeader(b)
    ensures a == b
  {
    var x, y := a + "\">" + a, b + "\">" + b;
    assert x == y;
    assert |a| == |b|;
    assert a == x[..|a|] && b == y[..|b|];
  }

  /** A B-clause header gives back its id and name, for an id without `)` (every id the
      `B{...}` pattern accepts is a digit string). */
  lemma BClauseHeaderInjective(i1: string, n1: string, i2: string, n2: string)
    requires ')' !in i1 && ')' !in i2
    requires BClauseHeader(i1, n1) == BClauseHeader(i2, n2)
    ensures i1 == i2 && n1 == n2
  {
    var x, y := "(" + i1 + ") " + n1, "(" + i2 + ") " + n2;
    assert x == y;
    assert x == ("(" + i1) + [')'] + (" " + n1);
    assert y == ("(" + i2) + [')'] + (" " + n2);
    assert ')' !in "(" + i1 && ')' !in "(" + i2;
    IndexOfAfter("(" + i1, ')', " " + n1);
    IndexOfAfter("(" + i2, ')', " " + n2);
    assert |i1| == |i2|;
    assert i1 == x[1..|i1| + 1] && i2 == y[1..|i2| + 1];
    assert n1 == x[|i1| + 3..] && n2 == y[|i2| + 3..];
  }

  /** A name is read back from its group or subgroup header. */
  lemma HeaderNames(a: string, b: string)
    ensures GroupHeader(a) == GroupHeader(b) ==> a == b
    ensures SubgroupHeader(a) == SubgroupHeader(b) ==> a == b
  {
  }
}
