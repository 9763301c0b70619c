# sdlxliff-parser: the report traversal, in Dafny

`sdlxliff-parser` is a command-line tool. It reads one SDLXLIFF file (the XLIFF
dialect used by SDL translation tools) and prints a flat summary. The summary has
a blank line, the `file` element's `original`, `datatype`, `source-language` and
`target-language` attributes, another blank line, then, group by group, the
segment markers (`mrk`) of the group's trans-unit. Each source marker prints one
line with its text, or, when it has none, one line per nested `g` (possibly none
at all). Each target marker prints exactly one line. If the body has no groups,
it prints `Empty.` instead of segment lines.

This project models that summary:

- `xliff.dfy` (module `Xliff`): the decoded document tree, trimmed. It keeps the
  fields the report reads plus some it never reads: root attributes, part of the
  header, the plain `source`, the `g` directly under `seg-source`/`target`,
  placeholders, `seg-defs` and `cxts`. Those extra fields are there to show they
  do not matter. Absent elements are empty strings or empty sequences.
  `Decoded` is what the XML decoder returns: a document or an error.
- `flatten.dfy` (module `Flatten`): `FlatMap`, the concatenated output of a
  `for range` loop where each element prints a run of lines. It comes with
  lemmas for concatenation, one more iteration, splitting at an element,
  one line per element, a property of every line, and pointwise equality.
- `report.dfy` (module `Report`): the printed lines as functions
  (`ReportLines`, `Output`) and the properties of the report as lemmas.
- `reporter.dfy` (module `Reporter`): the printing loops of `main` as methods
  with `while` loops. Each `fmt.Println` appends one line to an output sequence.
  The methods are proved to print exactly `ReportLines` / `Output`.

`fmt.Println(a, b)` is modelled as `a + " " + b`. So a target marker with no
text and an empty `g` prints `"[Target]: "` with a trailing space.
`fmt.Println()` is the empty line. A line of the model is one `fmt.Println`
call: a text containing a newline still counts as one line, so the line counts
proved here are counts of `fmt.Println` calls, not of physical output lines.

The fallback is asymmetric, as in the source. A source marker without text
prints one line per nested `g`, and none if it has no `g`. A target marker
without text prints exactly one line, from its single `g`.

## Model

| member | source | states |
|---|---|---|
| `Reporter.PrintReport` | main.go:305-334 | the loops print exactly `ReportLines(doc)`: the header block, then each group's lines in document order, or `Empty.` when there are no groups |
| `Reporter.PrintGroup` | main.go:312-330 | one group's loops append exactly that group's source lines followed by its target lines |
| `Reporter.PrintSourceMrk` | main.go:314-321 | one source marker appends its own text line, or one line per nested `g` when it has no text |
| `Reporter.Run` | main.go:299-334 | a decoding error prints only its diagnostic and returns before any report line; a decoded document is reported |
| `Report.LabelledLine` | main.go:306 | a printed line starts with the caption and one space, and the value can be read back unchanged from the rest of the line |
| `Report.LineInjective` | main.go:306 | two lines with the same caption are equal only when their values are: joining with a space loses no information |
| `Report.HeaderBlock` | main.go:305-310 | the first six lines are a blank line, `Original: `, `Datatype: `, `SourceLanguage: `, `TargetLanguage: ` plus the attribute copied verbatim, and a blank line |
| `Report.EmptyBody` | main.go:311-333 | with no groups the report has exactly seven lines, and the seventh is `Empty.` |
| `Report.NoEmptyMarker` | main.go:311-331 | with at least one group, no line is `Empty.`, and every line after the header is a source or a target line |
| `Report.SourceTextWins` | main.go:315-316 | a source marker with text yields exactly one line `[Source]: <text>`, whatever its nested `g` spans are |
| `Report.SourceFallback` | main.go:317-320 | a source marker without text yields one line per nested `g`, in order, each `[Source]: <g text>`; no spans, no lines |
| `Report.TargetOneLineEach` | main.go:324-329 | there is exactly one target line per target marker, in order: its text if non-empty, otherwise its single `g`'s text (possibly empty) |
| `Report.SourceLinesCount` | main.go:314-322 | the number of source lines is the sum over markers of 1 for a marker with text, else its number of `g` spans |
| `Report.GroupLayout` | main.go:312-330 | a group prints (source line count + number of target markers) lines; line k is a source line exactly when k is below the source line count, and a target line exactly when it is not |
| `Report.GroupsInDocumentOrder` | main.go:312 | the report is the header, then the lines of the groups before group i, then group i's lines, then the lines of the groups after it |
| `Report.OnlyReadFieldsMatter` | main.go:306-328 | two documents that agree on the four file attributes and on every source/target marker text and its `g` text print the same report; all other fields are irrelevant |
| `Report.ReportShape` | main.go:305-334 | every printed report line is blank, `Empty.`, a labelled header line, or a source or target line |
| `Report.DecodeFailureReportsNothing` | main.go:299-303 | on a decoding error exactly one line is printed, and it has none of the report's line shapes (no header, no segment, no `Empty.`) |
| `Report.SingleSegmentReport` | main.go:305-330 | a one-group document with marker texts `Hello`/`Bonjour` and attributes `a.docx`, `x`, `en`, `fr` prints exactly eight lines: the header, `[Source]: Hello`, `[Target]: Bonjour` |
| `Flatten.FlatMapConcat` | main.go:312 | the output of a loop over `xs + ys` is the output over `xs` followed by the output over `ys` |

## Left out

- Argument handling and file reading (`os.Args[1]`, `ioutil.ReadFile` and the "File reading error" branch, main.go:288-295): process and file I/O.
- XML decoding itself (`xml.Unmarshal`, the struct tags of main.go:11-284): a library call. The decoded tree, or the decoder's error, is an input (`Xliff.Decoded`). The decoder's error text is an opaque string.
- Exit status: the source returns normally, exit code 0, on both error paths. A method's return models that; there is no exit code in the model.
- Header metadata: only the header's text, the `internal-file` form, the `filetype-id` and the `file-info` values are kept. The reference (except its internal-file form), ref-files, sniff info, fmt/cxt/node/tag definitions (main.go:25-163) are not modelled, since the report never reads the header at all.
- `fmt.Println` buffering and writing to standard output: the model collects the lines in a sequence instead.
- Go's `len(mr.Text) > 0` counts bytes, and the model counts characters. Both are zero exactly for the empty string, and the `len(mr.Text) > 0` condition only asks whether the text is empty, so this changes nothing.
