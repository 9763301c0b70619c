/** The text summary that `main` prints for a decoded document
    (main.go:305-334), as the ordered sequence of lines it writes, and the
    properties of that summary. */
module Report {
  import opened Xliff
  import opened Flatten

  const SourceLabel := "[Source]:"
  const TargetLabel := "[Target]:"
  const EmptyMarker := "Empty."
  const DecodeErrorLabel := "XML Unmarshal error"

  /** `fmt.Println(caption, value)`: the two operands joined by one space.
      An empty value still leaves the separating space. */
  function Line(caption: string, value: string): string
  {
    caption + " " + value
  }

  /** A blank line, the four `file` attributes, a blank line (main.go:305-310). */
  function HeaderLines(f: File): seq<string>
  {
    [ "",
      Line("Original:", f.original),
      Line("Datatype:", f.dataType),
      Line("SourceLanguage:", f.sourceLanguage),
      Line("TargetLanguage:", f.targetLanguage),
      "" ]
  }

  /** One nested `g` of a source marker prints its text (main.go:318-320). */
  function SpanLines(g: InlineG): seq<string>
  {
    [Line(SourceLabel, g.text)]
  }

  /** A source marker prints its own text when it has any, and otherwise
      one line per nested `g` (main.go:315-321). */
  function SourceMrkLines(m: SourceMrk): seq<string>
  {
    if |m.text| > 0 then [Line(SourceLabel, m.text)] else FlatMap(SpanLines, m.g)
  }

  /** A target marker prints its own text when it has any, and otherwise the
      text of its single `g` (main.go:325-329). */
  function TargetMrkLines(m: TargetMrk): seq<string>
  {
    if |m.text| > 0 then [Line(TargetLabel, m.text)] else [Line(TargetLabel, m.g.text)]
  }

  function SourceLines(tu: TransUnit): seq<string>
  {
    FlatMap(SourceMrkLines, tu.segSource.mrk)
  }

  function TargetLines(tu: TransUnit): seq<string>
  {
    FlatMap(TargetMrkLines, tu.target.mrk)
  }

  /** One group: all its source lines, then all its target lines (main.go:312-330). */
  function GroupLines(gr: Group): seq<string>
  {
    SourceLines(gr.transUnit) + TargetLines(gr.transUnit)
  }

  /** The groups in document order, or the `Empty.` marker (main.go:311-334). */
  function BodyLines(groups: seq<Group>): seq<string>
  {
    if |groups| > 0 then FlatMap(GroupLines, groups) else [EmptyMarker]
  }

  /** Everything printed for a decoded document. */
  function ReportLines(doc: Document): seq<string>
  {
    HeaderLines(doc.file) + BodyLines(doc.file.body.group)
  }

  /** Everything printed once decoding has run (main.go:299-334): the report,
      or only the diagnostic line. */
  function Output(d: Decoded): seq<string>
  {
    match d
    case Decoded(doc) => ReportLines(doc)
    case DecodeError(message) => [Line(DecodeErrorLabel, message)]
  }

  // ---------------------------------------------------------------------
  // Independent descriptions used by the properties below

  /** How many source lines a sequence of markers yields: one for a marker
      with text, otherwise one per nested `g`. */
  function SourceLineCount(ms: seq<SourceMrk>): nat
  {
    if ms == [] then 0
    else (if ms[0].text != "" then 1 else |ms[0].g|) + SourceLineCount(ms[1..])
  }

  predicate StartsWith(l: string, prefix: string)
  {
    |prefix| <= |l| && l[..|prefix|] == prefix
  }

  predicate IsSourceLine(l: string)
  {
    StartsWith(l, "[Source]: ")
  }

  predicate IsTargetLine(l: string)
  {
    StartsWith(l, "[Target]: ")
  }

  /** The shapes of line a report is made of. */
  predicate IsReportLine(l: string)
  {
    l == "" || l == EmptyMarker || IsSourceLine(l) || IsTargetLine(l)
    || StartsWith(l, "Original: ") || StartsWith(l, "Datatype: ")
    || StartsWith(l, "SourceLanguage: ") || StartsWith(l, "TargetLanguage: ")
  }

  /** The fields the report reads agree: the four `file` attributes and, group
      by group, the text of every source marker and of its nested `g` spans and
      the text of every target marker and of its single `g`. */
  predicate SameSourceMrkFields(a: SourceMrk, b: SourceMrk)
  {
    a.text == b.text && |a.g| == |b.g|
    && forall k :: 0 <= k < |a.g| ==> a.g[k].text == b.g[k].text
  }

  predicate SameTargetMrkFields(a: TargetMrk, b: TargetMrk)
  {
    a.text == b.text && a.g.text == b.g.text
  }

  predicate SameGroupFields(a: Group, b: Group)
  {
    var s1, s2 := a.transUnit.segSource.mrk, b.transUnit.segSource.mrk;
    var t1, t2 := a.transUnit.target.mrk, b.transUnit.target.mrk;
    |s1| == |s2| && (forall i :: 0 <= i < |s1| ==> SameSourceMrkFields(s1[i], s2[i]))
    && |t1| == |t2| && (forall i :: 0 <= i < |t1| ==> SameTargetMrkFields(t1[i], t2[i]))
  }

  predicate SameReadFields(d1: Document, d2: Document)
  {
    var f1, f2 := d1.file, d2.file;
    f1.original == f2.original && f1.dataType == f2.dataType
    && f1.sourceLanguage == f2.sourceLanguage && f1.targetLanguage == f2.targetLanguage
    && |f1.body.group| == |f2.body.group|
    && forall i :: 0 <= i < |f1.body.group| ==> SameGroupFields(f1.body.group[i], f2.body.group[i])
  }

  // ---------------------------------------------------------------------
  // Properties

  /** A printed line starts with its caption and the separating space, and
      the value can be read back, unchanged, from what follows. */
  lemma LabelledLine(caption: string, value: string)
    ensures StartsWith(Line(caption, value), caption + " ")
    ensures |Line(caption, value)| == |caption| + 1 + |value|
    ensures Line(caption, value)[|caption| + 1..] == value
  {
    assert Line(caption, value)[..|caption| + 1] == caption + " ";
    assert Line(caption, value)[|caption| + 1..] == value;
  }

  /** Joining loses nothing: two lines with the same caption are equal only
      when their values are. */
  lemma LineInjective(caption: string, v1: string, v2: string)
    requires Line(caption, v1) == Line(caption, v2)
    ensures v1 == v2
  {
    LabelledLine(caption, v1);
    LabelledLine(caption, v2);
  }

  /** The report opens with a blank line, the four attributes copied
      verbatim, and another blank line. */
  lemma HeaderBlock(doc: Document)
    ensures |ReportLines(doc)| >= 6
    ensures ReportLines(doc)[..6] ==
      [ "",
        "Original: " + doc.file.original,
        "Datatype: " + doc.file.dataType,
        "SourceLanguage: " + doc.file.sourceLanguage,
        "TargetLanguage: " + doc.file.targetLanguage,
        "" ]
  {
    var f := doc.file;
    LabelledLine("Original:", f.original);
    LabelledLine("Datatype:", f.dataType);
    LabelledLine("SourceLanguage:", f.sourceLanguage);
    LabelledLine("TargetLanguage:", f.targetLanguage);
    assert "Original:" + " " == "Original: ";
    assert "Datatype:" + " " == "Datatype: ";
    assert "SourceLanguage:" + " " == "SourceLanguage: ";
    assert "TargetLanguage:" + " " == "TargetLanguage: ";
  }

  /** Without groups, the only line after the header is `Empty.`. */
  lemma EmptyBody(doc: Document)
    requires doc.file.body.group == []
    ensures |ReportLines(doc)| == 7 && ReportLines(doc)[6] == "Empty."
  {
  }

  /** A source marker prints one line per nested `g`, or the one line of its
      own text; and the line count obeys the same rule for a whole sequence. */
  lemma {:induction false} SourceLinesCount(ms: seq<SourceMrk>)
    ensures |FlatMap(SourceMrkLines, ms)| == SourceLineCount(ms)
  {
    if ms != [] {
      SourceLinesCount(ms[1..]);
      if ms[0].text == "" {
        SourceFallback(ms[0]);
      }
    }
  }

  /** A source marker with text prints exactly one line with that text, and
      its nested `g` spans, whatever they are, contribute nothing. */
  lemma SourceTextWins(m: SourceMrk, spans: seq<InlineG>)
    requires m.text != ""
    ensures SourceMrkLines(m) == ["[Source]: " + m.text]
    ensures SourceMrkLines(m.(g := spans)) == SourceMrkLines(m)
  {
    LabelledLine(SourceLabel, m.text);
    assert SourceLabel + " " == "[Source]: ";
  }

  /** A source marker without text prints one line per nested `g`, in order,
      each carrying that span's text; no spans, no lines. */
  lemma SourceFallback(m: SourceMrk)
    requires m.text == ""
    ensures |SourceMrkLines(m)| == |m.g|
    ensures forall k :: 0 <= k < |m.g| ==> SourceMrkLines(m)[k] == "[Source]: " + m.g[k].text
  {
    FlatMapSingletons(SpanLines, m.g);
    forall k | 0 <= k < |m.g| ensures SourceMrkLines(m)[k] == "[Source]: " + m.g[k].text {
      LabelledLine(SourceLabel, m.g[k].text);
    }
  }

  /** Every target marker prints exactly one line: its own text when it has
      any, otherwise the text of its single `g`, which may be empty. */
  lemma TargetOneLineEach(tu: TransUnit)
    ensures |TargetLines(tu)| == |tu.target.mrk|
    ensures forall k :: 0 <= k < |tu.target.mrk| ==>
      TargetLines(tu)[k] == "[Target]: " +
        (if tu.target.mrk[k].text != "" then tu.target.mrk[k].text else tu.target.mrk[k].g.text)
  {
    var ms := tu.target.mrk;
    FlatMapSingletons(TargetMrkLines, ms);
    forall k | 0 <= k < |ms|
      ensures TargetLines(tu)[k] == "[Target]: " + (if ms[k].text != "" then ms[k].text else ms[k].g.text)
    {
      LabelledLine(TargetLabel, if ms[k].text != "" then ms[k].text else ms[k].g.text);
    }
  }

  lemma SourceLinesTagged(tu: TransUnit)
    ensures forall k :: 0 <= k < |SourceLines(tu)| ==> IsSourceLine(SourceLines(tu)[k])
  {
    var ms := tu.segSource.mrk;
    forall i, k | 0 <= i < |ms| && 0 <= k < |SourceMrkLines(ms[i])|
      ensures IsSourceLine(SourceMrkLines(ms[i])[k])
    {
      if ms[i].text != "" {
        SourceTextWins(ms[i], ms[i].g);
        LabelledLine(SourceLabel, ms[i].text);
      } else {
        SourceFallback(ms[i]);
        LabelledLine(SourceLabel, ms[i].g[k].text);
      }
    }
    FlatMapAll(SourceMrkLines, ms, IsSourceLine);
  }

  lemma TargetLinesTagged(tu: TransUnit)
    ensures forall k :: 0 <= k < |TargetLines(tu)| ==> IsTargetLine(TargetLines(tu)[k])
  {
    TargetOneLineEach(tu);
    var ms := tu.target.mrk;
    forall k | 0 <= k < |ms| ensures IsTargetLine(TargetLines(tu)[k]) {
      LabelledLine(TargetLabel, if ms[k].text != "" then ms[k].text else ms[k].g.text);
    }
  }

  /** A group prints (sum over source markers of: 1 when it has text, else
      the number of its `g` spans) plus (number of target markers) lines,
      and all its source lines come before all its target lines. */
  lemma GroupLayout(gr: Group)
    ensures |GroupLines(gr)| == SourceLineCount(gr.transUnit.segSource.mrk) + |gr.transUnit.target.mrk|
    ensures forall k :: 0 <= k < |GroupLines(gr)| ==>
      (IsSourceLine(GroupLines(gr)[k]) <==> k < SourceLineCount(gr.transUnit.segSource.mrk))
    ensures forall k :: 0 <= k < |GroupLines(gr)| ==>
      (IsTargetLine(GroupLines(gr)[k]) <==> k >= SourceLineCount(gr.transUnit.segSource.mrk))
  {
    var tu := gr.transUnit;
    SourceLinesCount(tu.segSource.mrk);
    TargetOneLineEach(tu);
    SourceLinesTagged(tu);
    TargetLinesTagged(tu);
    var n := |SourceLines(tu)|;
    forall k | 0 <= k < |GroupLines(gr)|
      ensures IsSourceLine(GroupLines(gr)[k]) <==> k < n
      ensures IsTargetLine(GroupLines(gr)[k]) <==> k >= n
    {
      var l := GroupLines(gr)[k];
      if k < n {
        assert l == SourceLines(tu)[k];
        assert l[1] == 'S';
      } else {
        assert l == TargetLines(tu)[k - n];
        assert l[1] == 'T';
      }
    }
  }

  /** Every line a non-empty body prints is a source or a target line. */
  lemma GroupsAreSegmentLines(groups: seq<Group>)
    ensures forall k :: 0 <= k < |FlatMap(GroupLines, groups)| ==>
      IsSourceLine(FlatMap(GroupLines, groups)[k]) || IsTargetLine(FlatMap(GroupLines, groups)[k])
  {
    forall i, k | 0 <= i < |groups| && 0 <= k < |GroupLines(groups[i])|
      ensures IsSourceLine(GroupLines(groups[i])[k]) || IsTargetLine(GroupLines(groups[i])[k])
    {
      GroupLayout(groups[i]);
    }
    FlatMapAll(GroupLines, groups, l => IsSourceLine(l) || IsTargetLine(l));
  }

  /** With at least one group, `Empty.` is never printed, and every line
      after the header is a source or a target line. */
  lemma NoEmptyMarker(doc: Document)
    requires |doc.file.body.group| > 0
    ensures EmptyMarker !in ReportLines(doc)
    ensures forall k :: 6 <= k < |ReportLines(doc)| ==>
      IsSourceLine(ReportLines(doc)[k]) || IsTargetLine(ReportLines(doc)[k])
  {
    var r := ReportLines(doc);
    var body := FlatMap(GroupLines, doc.file.body.group);
    GroupsAreSegmentLines(doc.file.body.group);
    HeaderBlock(doc);
    forall k | 0 <= k < |r| ensures r[k] != EmptyMarker {
      if k >= 6 {
        assert r[k] == body[k - 6];
      } else if 1 <= k <= 4 {
        assert r[k] == r[..6][k];
      }
    }
  }

  /** Groups print in document order: the report is the header, the lines
      of the groups before group `i`, group `i`'s own lines, then those of
      the groups after it. */
  lemma GroupsInDocumentOrder(doc: Document, i: nat)
    requires i < |doc.file.body.group|
    ensures var gs := doc.file.body.group;
      ReportLines(doc) ==
        HeaderLines(doc.file) + FlatMap(GroupLines, gs[..i]) + GroupLines(gs[i])
        + FlatMap(GroupLines, gs[i + 1..])
  {
    FlatMapSplit(GroupLines, doc.file.body.group, i);
  }

  lemma SameSourceMrkSameLines(a: SourceMrk, b: SourceMrk)
    requires SameSourceMrkFields(a, b)
    ensures SourceMrkLines(a) == SourceMrkLines(b)
  {
    if a.text == "" {
      FlatMapPointwise(SpanLines, a.g, b.g);
    }
  }

  lemma SameGroupSameLines(a: Group, b: Group)
    requires SameGroupFields(a, b)
    ensures GroupLines(a) == GroupLines(b)
  {
    var s1, s2 := a.transUnit.segSource.mrk, b.transUnit.segSource.mrk;
    forall i | 0 <= i < |s1| ensures SourceMrkLines(s1[i]) == SourceMrkLines(s2[i]) {
      SameSourceMrkSameLines(s1[i], s2[i]);
    }
    FlatMapPointwise(SourceMrkLines, s1, s2);
    FlatMapPointwise(TargetMrkLines, a.transUnit.target.mrk, b.transUnit.target.mrk);
  }

  /** Only the fields the traversal reads decide the report: the root
      attributes, the header, the plain `source`, `seg-source/g`,
      `target/g`, the placeholders, `seg-defs`, `cxts` and every `mtype`,
      `mid` and `id` can change without changing a line. */
  lemma OnlyReadFieldsMatter(d1: Document, d2: Document)
    requires SameReadFields(d1, d2)
    ensures ReportLines(d1) == ReportLines(d2)
  {
    var g1, g2 := d1.file.body.group, d2.file.body.group;
    forall i | 0 <= i < |g1| ensures GroupLines(g1[i]) == GroupLines(g2[i]) {
      SameGroupSameLines(g1[i], g2[i]);
    }
    FlatMapPointwise(GroupLines, g1, g2);
  }

  /** Every line of a report has one of the report's line shapes. */
  lemma ReportShape(doc: Document)
    ensures forall k :: 0 <= k < |ReportLines(doc)| ==> IsReportLine(ReportLines(doc)[k])
  {
    var r := ReportLines(doc);
    HeaderBlock(doc);
    var f := doc.file;
    LabelledLine("Original:", f.original);
    LabelledLine("Datatype:", f.dataType);
    LabelledLine("SourceLanguage:", f.sourceLanguage);
    LabelledLine("TargetLanguage:", f.targetLanguage);
    if |f.body.group| > 0 {
      NoEmptyMarker(doc);
    }
    forall k | 0 <= k < |r| ensures IsReportLine(r[k]) {
      if k < 6 {
        assert r[k] == r[..6][k];
      }
    }
  }

  /** When decoding fails, neither the header nor any segment line is
      printed: the single line printed has none of the report's shapes. */
  lemma DecodeFailureReportsNothing(message: string)
    ensures |Output(DecodeError(message))| == 1
    ensures forall k :: 0 <= k < |Output(DecodeError(message))| ==>
      !IsReportLine(Output(DecodeError(message))[k])
  {
    var l := Line(DecodeErrorLabel, message);
    LabelledLine(DecodeErrorLabel, message);
    assert l[0] == 'X';
  }

  /** One group with one source and one target marker, each with direct
      text: the header and exactly one line for each marker. */
  lemma SingleSegmentReport(doc: Document)
    requires doc.file.original == "a.docx" && doc.file.dataType == "x"
    requires doc.file.sourceLanguage == "en" && doc.file.targetLanguage == "fr"
    requires |doc.file.body.group| == 1
    requires doc.file.body.group[0].transUnit.segSource.mrk == [SourceMrk("Hello", "seg", "1", [], [])]
    requires doc.file.body.group[0].transUnit.target.mrk == [TargetMrk("Bonjour", "seg", "1", [], TargetG("", ""))]
    ensures ReportLines(doc) ==
      [ "", "Original: a.docx", "Datatype: x", "SourceLanguage: en", "TargetLanguage: fr", "",
        "[Source]: Hello", "[Target]: Bonjour" ]
  {
    var gs := doc.file.body.group;
    HeaderBlock(doc);
    var src := gs[0].transUnit.segSource.mrk[0];
    SourceTextWins(src, src.g);
    TargetOneLineEach(gs[0].transUnit);
    var ms := gs[0].transUnit.segSource.mrk;
    assert ms[1..] == [];
    assert "[Source]: " + "Hello" == "[Source]: Hello";
    assert "[Target]: " + "Bonjour" == "[Target]: Bonjour";
    assert SourceMrkLines(src) == ["[Source]: Hello"];
    assert SourceLines(gs[0].transUnit) == SourceMrkLines(src) + FlatMap(SourceMrkLines, ms[1..]);
    assert TargetLines(gs[0].transUnit) == ["[Target]: Bonjour"];
    assert gs[1..] == [];
    assert FlatMap(GroupLines, gs) == GroupLines(gs[0]) + FlatMap(GroupLines, gs[1..]);
    assert "Original: " + "a.docx" == "Original: a.docx";
    assert "Datatype: " + "x" == "Datatype: x";
    assert "SourceLanguage: " + "en" == "SourceLanguage: en";
    assert "TargetLanguage: " + "fr" == "TargetLanguage: fr";
    assert GroupLines(gs[0]) == ["[Source]: Hello", "[Target]: Bonjour"];
    assert ReportLines(doc) == ReportLines(doc)[..6] + ["[Source]: Hello", "[Target]: Bonjour"];
  }
}
