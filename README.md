# Plotto build script: the conversion engine, in Dafny

`scripts/build.py` turns the annotated text of William Wallace Cook's *Plotto* into one
HTML page. It is driven by its `Parser` class. The script reads the book line by line, and
the parser writes HTML fragments as it goes:

- headers for groups, subgroups, B-clauses and conflict entries;
- blocks for the formatting directives (`-- FORMAT_BEGIN:`, `-- FORMAT:`, `-- HR`, …);
- for each conflict entry, a `PRE:` sub-header, the description collected from the
  lines between `PRE:` and `POST:`, and the `POST:` links.

Cross-references such as `(123a; 45 or 67)` become anchors to the entries they name.

This project models that engine and proves what it does:

| file | module | what it models |
|---|---|---|
| results.dfy | `Results` | `Option`, `Result`, the errors the script exits with, the outcome of a line |
| text.dfy | `Text` | the Python string operations used: `strip` (Python 2 whitespace), `in`, `split` (leftmost, non-overlapping), `join`, `\d+` |
| link_grammar.dfy | `LinkGrammar` | `parse_link` (a recursive grammar) and `parse_links` (its loop, a `method`) |
| body_scanner.dfy | `BodyScanner` | `write_conflict_body`'s scanning loop (a `method`) and `add_tags` |
| html.dfy | `Html` | the `write_*_header` formatters and the literal fragments written |
| lines.dfy | `Lines` | the regular expressions of `process_line`, written out as matchers over the line |
| machine.dfy | `Machine` | the parser's fields as a value, and `process_line` as a transition function `Step`, folded over a file by `Run` |
| protocol.dfy | `Protocol` | lemmas about `Step` and `Run`: modes, dispatch, the `PRE:`/`POST:` region protocol, output growth |
| build.dfy | `Build` | `class Parser` with the source's fields, updated in place; each method is proved to move the object exactly as `Step` says |

### How the model is shaped

- **Failures are values.** `error()` prints a message and exits the process; here it
  returns `Err(...)`:
  - `InvalidLinks(atom)` for the call at build.py:99;
  - `InvalidLink(id, rest)` for the call at build.py:41.

  Two other failures are modelled the same way:
  - `UnknownConflict(id)`: the `KeyError` of `self.links[self.id]` when a `PRE:` line
    comes before any `Conflict{...}` line (build.py:210);
  - `PostOutsideRegion`: the `assert` at build.py:219.

  A failing line keeps the changes the source made before it failed. For example, the
  `<div class="desc">` of a body whose link does not resolve has already been written.
  `Run` stops at the first failing line.
- **The output file** is a `seq<string>` with one element per `write` call.
- **Lines arrive without their line terminator.** A trailing newline would change
  nothing, because no capture of any pattern takes it: Python's `.` never matches `\n`.
  - `^--`, `^-- FORMAT`, `^-- FORMAT_END` and `^-- HR` (build.py:108, 110, 129, 141) only test
    the start of the line.
  - The four tag directives `^-- FORMAT_BEGIN_LINES:(.*)`, `^-- FORMAT_BEGIN:(.*)`,
    `^-- FORMAT:(.*)` and `^-- FORMAT_LINKS:(.*)` (build.py:119, 124, 133, 137) end in an
    unanchored `(.*)`, which stops before the newline.
  - Every other pattern (build.py:169, 177, 182, 189, 196, 203, 217) ends in `$`, which
    matches before a final newline, so the same lines match and the captures are the same.
    This includes the group, subgroup and B-clause names and the `PRE:`/`POST:` links, which
    are used without `strip()`.
  - The remaining paths strip the whole line before writing it: the formatting modes
    (build.py:148-173) and the pending text of a conflict body.

  So `.` is any character and `$` is the end of the string.
- **A formatting mode** is `None` or the tag it was set to. A mode counts as active only
  when its tag is not empty, as Python's truth test decides (build.py:147, 158, 162, 167).
- **`-- FORMAT_END` clears the modes**, as every line starting with `-- FORMAT` does
  (build.py:110-116). A reading of the directive as "close the block" alone would leave
  the modes set; the code clears them, and the model follows the code.

## Model

| member | source | states |
|---|---|---|
| `Text.StripShape` | scripts/build.py:73 | `strip()` removes exactly the leading and trailing Python whitespace: the result is a slice of the input with no whitespace at either end and only whitespace around it |
| `Text.StripTwice` | scripts/build.py:148-154 | stripping an already stripped line changes nothing, so paragraph mode's second `strip()` writes the line as stripped once |
| `Text.StripEmpty` | scripts/build.py:148-149 | a line is blank after `strip()` exactly when every character is whitespace |
| `Text.SplitJoin` | scripts/build.py:70 | `split` then `join` with the same separator gives back the text, and no segment contains the separator |
| `Text.FindLeftmost` | scripts/build.py:69 | the substring search finds the leftmost occurrence, and finds none exactly when there is none |
| `LinkGrammar.ParseLink` | scripts/build.py:53-103 | `parse_link`: every failure names an atom that is neither empty nor digit-led |
| `LinkGrammar.Anchor` | scripts/build.py:103 | the anchor a digit-led atom becomes: a link to the entry number, showing the original text (a definition, no contract of its own) |
| `LinkGrammar.Compound` | scripts/build.py:69-90 | a sequence or alternation: split, resolve each stripped segment, join, stopping at the first failure; every failure names an atom that is neither empty nor digit-led |
| `LinkGrammar.Resolutions` | scripts/build.py:70-74 | the resolutions of the stripped segments of the split, in order (a definition, characterised by `CompoundResolution`, `SequenceResolution` and `AlternationResolution`) |
| `LinkGrammar.Collect` | scripts/build.py:72-77 | the loop over segments succeeds exactly when every segment resolves, giving one value per segment in order; otherwise it fails with the first failure |
| `LinkGrammar.SequenceResolution` | scripts/build.py:68-78 | a link containing `;` has at least two segments; each segment is stripped and resolved, and the results are joined by ` ; ` in order; any failing segment fails the link |
| `LinkGrammar.AlternationResolution` | scripts/build.py:80-90 | a link without `;` but with ` or ` is resolved the same way, joined by ` or ` |
| `LinkGrammar.AtomResolution` | scripts/build.py:92-103 | an atom resolves exactly when it is empty or starts with a digit; `""` gives `""`; a digit-led atom gives an anchor to its maximal leading digit run showing the atom unchanged; anything else fails naming the atom |
| `LinkGrammar.NumberAtom` | scripts/build.py:96-103 | an entry number links to itself |
| `LinkGrammar.TwoSegments` | scripts/build.py:69-90 | a compound of two segments joins the two resolutions with the joiner, or fails with the first failure |
| `LinkGrammar.AlternationOfNumbers` | scripts/build.py:80-90 | `b or c` gives two anchors joined by ` or ` |
| `LinkGrammar.SequenceOfAlternation` | scripts/build.py:68-90 | `a; b or c` is a sequence whose second element is an alternation: `;` takes precedence |
| `LinkGrammar.MatchLinkGroup` | scripts/build.py:39 | `^\((.*?)\) ?(.*)$`: no match exactly when the text does not start with `(` or has no `)`; the group runs to the first `)`, and one optional space is skipped; a match consumes at least two characters |
| `LinkGrammar.MatchLinkGroupOf` | scripts/build.py:39 | the matcher gives back the group and the rest that a link list was built from |
| `LinkGrammar.GroupwiseResolution` | scripts/build.py:36-49 | `parse_links` succeeds exactly when the text is a run of `(...)` groups that all resolve; it then gives one `clinkgroup` span per group, in order, separated by single spaces; the empty text gives `""` |
| `LinkGrammar.MalformedLinks` | scripts/build.py:39-41 | text that does not start with a group fails, naming the current entry and the remaining text |
| `LinkGrammar.GroupSpan` | scripts/build.py:47 | the `clinkgroup` span around one resolved group (a definition, no contract of its own) |
| `LinkGrammar.ResolveLinks` | scripts/build.py:37-49 | the resolutions of the leading groups in order, or the first failure: a malformed rest or a group that does not resolve (a recursive definition, characterised by `GroupwiseResolution` and `MalformedLinks`) |
| `LinkGrammar.LinksHtml` | scripts/build.py:36-49 | what `parse_links` returns: the spans of `ResolveLinks` joined by single spaces (a definition; `ParseLinks` is proved equal to it and `GroupwiseResolution` characterises it) |
| `LinkGrammar.SingleGroup` | scripts/build.py:36-49 | the single group `(link)` gives one span around the resolution of `link` |
| `LinkGrammar.SampleAtoms` | scripts/build.py:92-103 | `()` gives an empty span; `2a` links to entry 2 and shows `2a` |
| `LinkGrammar.ParseLinks` | scripts/build.py:36-49 | the loop of `parse_links`, consuming one group per iteration, returns exactly what `LinksHtml` (the recursive reading above) returns, including its failures |
| `BodyScanner.MatchParenthetical` | scripts/build.py:284 | `^([^(]*)\(([^)]+)\)(.*)$`: the text is the part before the first `(`, a non-empty content without `)` (it may contain `(`), and the rest |
| `BodyScanner.MatchParentheticalOf` | scripts/build.py:284 | any split of that shape is the one the matcher finds |
| `BodyScanner.AddTags` | scripts/build.py:305-311 | `add_tags` returns its argument, since its tagging code is commented out (a definition, no contract of its own) |
| `BodyScanner.BodyText` | scripts/build.py:280 | the pending lines, each stripped, joined by single spaces (a definition, no contract of its own) |
| `BodyScanner.Replacement` | scripts/build.py:289-294 | a digit-led parenthetical becomes `parse_links` of it with its parentheses put back; any other is kept with its parentheses (a definition, characterised by `DigitReplacement`) |
| `BodyScanner.ScanBody` | scripts/build.py:283-300 | the scanner's reference definition: the text before each parenthetical, its replacement, the rest scanned the same way, or the first failure (characterised by `ScanStep`, `ScanStops`, `ScanVerbatim` and `ScanFailure`; `ScanText` is proved equal to it) |
| `BodyScanner.DigitReplacement` | scripts/build.py:289-290 | a digit-led parenthetical is replaced by the single group span of its resolution, without the parentheses |
| `BodyScanner.ScanStops` | scripts/build.py:284-300 | scanning stops at the first `(` without non-empty `)`-terminated content, and the whole text is emitted unchanged |
| `BodyScanner.ScanPlain` | scripts/build.py:298-300 | text without `(` is emitted unchanged |
| `BodyScanner.ScanStep` | scripts/build.py:284-297 | one step of the scan: the text before the parenthetical, its replacement, then the scan of the rest |
| `BodyScanner.ScanVerbatim` | scripts/build.py:293-300 | when no parenthetical the scan visits starts with a digit, the output is exactly the input |
| `BodyScanner.ScanFailure` | scripts/build.py:289-292 | every failure of the scan is a link that does not resolve |
| `BodyScanner.ScanText` | scripts/build.py:280-300 | the loop of `write_conflict_body` returns exactly what `ScanBody` returns |
| `Lines.ParseDirective` | scripts/build.py:108-145 | comment lines are exactly the lines starting with `--`; each `FORMAT` directive's tag is the rest of the line after its keyword; a line is `FORMAT_END` exactly when it starts with `-- FORMAT_END`, and `HR` exactly when it starts with `-- HR`, whatever follows; the keywords are tried in the source's order |
| `Lines.DirectiveRoundTrip` | scripts/build.py:119-142 | every directive is read back from the line it is written as, whatever its tag |
| `Lines.ClearingDirectives` | scripts/build.py:110-116 | the five `FORMAT` directives all cancel the modes first, and `-- HR` does not |
| `Lines.ParseRecord` | scripts/build.py:177-217 | each record kind comes from the line shape of its pattern, with non-empty names, digit ids and a subid from `a` to `m` or absent |
| `Lines.Braced` | scripts/build.py:177-182 | `^<lead>(.+)}$`: a non-empty name between the lead and a final `}`, and no match exactly when the line lacks that shape |
| `Lines.RecordRoundTrip` | scripts/build.py:177-217 | every such record is read back from its line, in the source's order of patterns |
| `Lines.BClauseMatch` | scripts/build.py:189 | `^B{(\d+)} (.*)$`: a non-empty digit id and the name after `} ` |
| `Lines.ConflictMatch` | scripts/build.py:196 | `^Conflict{(\d+)}$`: a non-empty digit id |
| `Lines.PreMatch` | scripts/build.py:203-209 | `^(\((?P<subid>[a-m])\) )?PRE: (?P<links>.*)$`, with an absent subid read as `""` |
| `Lines.LinksPrefix` | scripts/build.py:169 | `^\s*\(([a-d])\) (.*)$`: a letter from `a` to `d` in parentheses after leading whitespace, and the text after it |
| `Lines.LinksPrefixOf` | scripts/build.py:169-172 | such a prefix is found however much whitespace precedes it |
| `Html.GroupHeader` | scripts/build.py:260-261 | the group block holds exactly the name |
| `Html.SubgroupHeader` | scripts/build.py:263-264 | the subgroup block holds exactly the name |
| `Html.BClauseHeader` | scripts/build.py:266-267 | the B-clause block holds `(id) name` |
| `Html.ConflictHeader` | scripts/build.py:269-270 | the conflict block's anchor and text are both the id |
| `Html.SubidPrefix` | scripts/build.py:272-275 | the subid marker is empty exactly when the subid is, and otherwise wraps the subid |
| `Html.ConflictSubheader` | scripts/build.py:272-276 | the PRE block holds the subid marker followed by the links |
| `Html.OpenDiv` | scripts/build.py:122 | the block opened by `FORMAT_BEGIN_LINES` and `FORMAT_BEGIN` has the directive's tag as its class |
| `Html.ParagraphBreak` | scripts/build.py:151 | the paragraph separator closes the block and opens one with the mode's tag |
| `Html.TaggedDiv` | scripts/build.py:163 | a one-line block holds its tag and its content |
| `Html.BrokenLine` | scripts/build.py:159 | a lines-mode line is the text followed by `<br/>` |
| `Html.PostLinks` | scripts/build.py:303 | the `postlinks` block holds the POST links |
| `Html.ConflictHeaderInjective` | scripts/build.py:269-270 | different entry ids give different conflict headers |
| `Html.BClauseHeaderInjective` | scripts/build.py:266-267 | a B-clause header gives back its id and name |
| `Html.HeaderNames` | scripts/build.py:260-264 | a group or subgroup header gives back its name |
| `Machine.Init` | scripts/build.py:16-34 | the field values `__init__` sets, with nothing written (a definition, no contract of its own) |
| `Machine.DirectiveStep` | scripts/build.py:108-145 | a comment line: the modes cancelled first when it starts with `-- FORMAT`, then its directive's field and fragment (a definition, characterised by `DirectiveEffect` and `DirectiveModes`) |
| `Machine.ParagraphStep` | scripts/build.py:147-156 | a paragraph-mode line (a definition, characterised by `ParagraphLine` and `BlankRun`) |
| `Machine.LinksModeStep` | scripts/build.py:167-175 | a links-mode line (a definition, characterised by `LabelledLinksLine`, `PlainLinksLine` and `LinksModeFrame`) |
| `Machine.ConflictBody` | scripts/build.py:278-303 | `write_conflict_body` (a definition, characterised by `ConflictBodyEffect`) |
| `Machine.PreStep` | scripts/build.py:203-215 | a `PRE:` line (a definition, characterised by `PreOpens` and `PreStepFrame`) |
| `Machine.PostStep` | scripts/build.py:217-223 | a `POST:` line (a definition, characterised by `PostOutside`, `PostStepEffect` and `PostStepFrame`) |
| `Machine.RecordEffect` | scripts/build.py:177-226 | what each kind of structural record does to the fields and the output (a definition, characterised by `RecordFrame`, `RecordPendingText` and `ConflictOpens`) |
| `Machine.RecordStep` | scripts/build.py:177-226 | a line outside every mode: the effect of the record it reads as (a definition) |
| `Machine.Step` | scripts/build.py:106-226 | `process_line`: directive first, then the active mode in the order paragraph, lines, next line, links, then the records (a definition, characterised by the `Protocol` lemmas; `Parser.ProcessLine` is proved equal to it) |
| `Machine.Run` | scripts/build.py:329-330 | the lines of a file processed in order, stopping at the first failing line (a definition, characterised by `RunConcat`, `RunKeepsAtMostOneMode` and `RunExtendsOutput`; `Parser.ProcessLines` is proved equal to it) |
| `Protocol.CommentDispatch` | scripts/build.py:108-145 | a comment line is handled by its directive whatever mode is active |
| `Protocol.RecordDispatch` | scripts/build.py:177-226 | a line that is not a comment goes to the records when no mode is active |
| `Protocol.DirectiveEffect` | scripts/build.py:108-145 | a comment line never fails, leaves every field outside the modes and `blank_line` unchanged, and writes exactly its directive's fragment (an opening block, `</div>`, `<hr/>` or nothing) |
| `Protocol.DirectiveModes` | scripts/build.py:108-145 | the modes after each directive: a `FORMAT` directive leaves only its own mode set, `FORMAT_END` none, `HR` leaves them, another comment clears them exactly when it starts with `-- FORMAT` |
| `Protocol.FormatDirectiveLeavesOneMode` | scripts/build.py:110-138 | after a line starting with `-- FORMAT` at most one mode is set |
| `Protocol.StepKeepsAtMostOneMode` | scripts/build.py:106-226 | no line sets a second mode |
| `Protocol.RunKeepsAtMostOneMode` | scripts/build.py:329-330 | at most one mode is set in every state a file reaches from one with at most one |
| `Protocol.ParagraphLine` | scripts/build.py:147-156 | in paragraph mode a blank line writes the separator once and sets `blank_line`, a second blank line does nothing, and any other line is written stripped and clears `blank_line`; nothing outside the output and `blank_line` changes |
| `Protocol.BlankRun` | scripts/build.py:147-156 | a run of blank lines in paragraph mode writes the separator once, or not at all when the previous line was blank |
| `Protocol.LinesLine` | scripts/build.py:158-160 | in lines mode a line is written stripped with `<br/>`, paragraph mode taking precedence |
| `Protocol.NextLineOnce` | scripts/build.py:162-165 | next-line mode writes one line in its block and switches itself off |
| `Protocol.NextLineThenRecord` | scripts/build.py:162-165 | the line after a next-line line is read as a record again |
| `Protocol.LabelledLinksLine` | scripts/build.py:167-175 | in links mode a line with an `(a)`-style label keeps the label as `(a)` before the resolved links, and the mode switches itself off |
| `Protocol.PlainLinksLine` | scripts/build.py:167-175 | a links-mode line without a label resolves the whole stripped line |
| `Protocol.LinksModeFrame` | scripts/build.py:167-175 | links mode changes only the output and its own mode |
| `Protocol.ModeKeepsStructure` | scripts/build.py:147-175 | an active mode takes the line without touching the structural fields and only appends output; each of the four modes keeps its value or is cleared, so none is newly set or changed to another tag |
| `Protocol.ConflictBodyEffect` | scripts/build.py:278-303 | the body writes the `desc` block and the `postlinks` block and changes nothing else; a body link that does not resolve stops it after `<div class="desc">` |
| `Protocol.PreStepFrame` | scripts/build.py:203-215 | a PRE line leaves the modes, `blank_line`, the group, subgroup, B-clause id and name, the conflict id and `subid` alone, and only appends output |
| `Protocol.PostStepFrame` | scripts/build.py:217-223 | the same for a POST line |
| `Protocol.RecordFrame` | scripts/build.py:177-226 | no record line touches the modes or `blank_line`, and each only appends output |
| `Protocol.BlankNotComment` | scripts/build.py:108 | a blank line is never a comment |
| `Protocol.NotComment` | scripts/build.py:108 | a record line is never a comment |
| `Protocol.ConflictOpens` | scripts/build.py:196-201 | `Conflict{n}` makes `n` the current entry, starts its subid list afresh, writes its header, and changes nothing else |
| `Protocol.PreOpens` | scripts/build.py:203-215 | a PRE line opens the region with no pending text, records its subid under the current entry, and writes the sub-header; it fails when no entry is open or the links do not resolve |
| `Protocol.PostOutside` | scripts/build.py:217-219 | a POST line outside a region fails and changes nothing |
| `Protocol.PostStepEffect` | scripts/build.py:217-223 | a POST line inside a region closes it without adding itself to the text, and writes the conflict body |
| `Protocol.PostCloses` | scripts/build.py:217-226 | the same for the whole step of such a line |
| `Protocol.PlainLineText` | scripts/build.py:225-226 | a line no rule matches is added to the pending text exactly when a region is open |
| `Protocol.PendingText` | scripts/build.py:177-226 | outside the modes, only a PRE line (which empties it) and a line no rule matches (inside a region) change the pending text |
| `Protocol.RecordPendingText` | scripts/build.py:177-226 | the same, for each kind of record |
| `Protocol.RegionCollects` | scripts/build.py:225-226 | inside a region plain lines are collected in order, and nothing is written |
| `Protocol.OutsideIgnored` | scripts/build.py:225-226 | outside a region plain lines change nothing |
| `Protocol.RunConcat` | scripts/build.py:329-330 | processing two files one after the other is processing their concatenation |
| `Protocol.RunSingle` | scripts/build.py:329-330 | a one-line file is one step |
| `Protocol.ConflictBranch` | scripts/build.py:203-303 | a PRE line, plain body lines and a POST line write, in order, the sub-header, the `desc` block holding the scanned body, and the `postlinks` block; they record the subid and close the region with the body as pending text |
| `Protocol.StepExtendsOutput` | scripts/build.py:106-226 | output is only ever appended to, even by a line that fails |
| `Protocol.RunExtendsOutput` | scripts/build.py:329-330 | the same for a whole file |
| `Build.Parser.constructor` | scripts/build.py:16-34 | a new parser is in the initial state |
| `Build.Parser.Emit` | scripts/build.py:279 | a write appends one element to the output |
| `Build.Parser.ClearFormats` | scripts/build.py:110-116 | the four modes are cancelled and nothing else changes |
| `Build.Parser.ApplyDirective` | scripts/build.py:108-145 | the comment branch updates the fields as `DirectiveStep` says |
| `Build.Parser.ParagraphMode` | scripts/build.py:147-156 | paragraph mode updates the fields as `ParagraphStep` says |
| `Build.Parser.LinksMode` | scripts/build.py:167-175 | links mode updates the fields and fails as `LinksModeStep` says |
| `Build.Parser.WriteConflictBody` | scripts/build.py:278-303 | `write_conflict_body` writes and fails as `ConflictBody` says |
| `Build.Parser.ProcessPre` | scripts/build.py:203-215 | the PRE branch updates the fields and fails as `PreStep` says |
| `Build.Parser.ProcessPost` | scripts/build.py:217-223 | the POST branch updates the fields and fails as `PostStep` says |
| `Build.Parser.EnterSubgroup` | scripts/build.py:182-187 | a subgroup line records the name and writes the group and subgroup headers |
| `Build.Parser.EnterBClause` | scripts/build.py:189-194 | a B-clause line records the id and name and writes the header |
| `Build.Parser.EnterConflict` | scripts/build.py:196-201 | a conflict line makes the id current, empties its subid list and writes the header |
| `Build.Parser.ApplyRecord` | scripts/build.py:177-226 | each record kind updates the fields as `RecordEffect` says |
| `Build.Parser.ProcessRecord` | scripts/build.py:177-226 | the structural branches update the fields as `RecordStep` says |
| `Build.Parser.ProcessLine` | scripts/build.py:106-226 | `process_line` updates the fields, writes and fails exactly as `Step` says |
| `Build.Parser.ProcessLines` | scripts/build.py:329-330 | processing the lines of a file in order leaves the parser as `Run` says, stopping at the first failing line |

## Left out

- `Parser.process` and `main` (build.py:313-345) are left out: they check that the file
  exists, open and close files, and hand the lines to `process_line`. Their loop over
  the lines is modelled by `ProcessLines` on a sequence of lines.
- `write_html_header`, `write_html_footer` and `write_navbar` are left out: they write
  constant text and hold no logic.
- The message `error()` prints and the process exit are left out: a failure is a value,
  and output written before it is kept.
- Running with `python -O` is not modelled. That flag removes the `assert` of the POST
  branch; the model always fails there.
- The unused character-tag pattern `char` (build.py:57-66) is left out: no code reads it.
- The unused `subid` local of `parse_link` (build.py:101) is left out: it has no effect.
  So is the `[a-h](, [a-h])*` group of its pattern, since the `.*` tail after it accepts
  any text.
- The commented-out body of `add_tags` is left out: `add_tags` returns its argument.
- The `hlink == None` tests (build.py:43, 75, 87, 291) are not modelled separately:
  `parse_link` never returns `None`, since a failure ends the process. Failures propagate
  as `Err` instead.
- The `subid` field is set to `""` by the constructor and never changed, exactly as in
  the source.
- Python's `re` engine is not modelled. Each pattern the code uses is written out as a
  matcher for exactly that pattern.
- Reading the file is not modelled, including the line terminators. Lines are taken to
  arrive without them; the source's patterns and its `strip()` calls give the same
  results either way.
- Bytes are not modelled: the source's strings are Python 2 byte strings, and the model
  reads them as sequences of characters. Every pattern tests ASCII characters only, and
  the output is made of slices of the input and fixed text, so the two readings agree.
- `Build.Parser.Emit`: writes are not modelled as file I/O; the output is the sequence of
  written strings, so buffering and write errors are not captured.
