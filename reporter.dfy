/** The printing loops of `main` (main.go:299-334), line by line: each
    `fmt.Println` appends one line to the output, and the loops are proved
    to print exactly the lines `Report` describes. */
module Reporter {
  import opened Xliff
  import opened Flatten
  import opened Report

  /** One source marker (main.go:315-321): its text, or one line per `g`. */
  method PrintSourceMrk(before: seq<string>, mr: SourceMrk) returns (out: seq<string>)
    ensures out == before + SourceMrkLines(mr)
  {
    out := before;
    if |mr.text| > 0 {
      out := out + [Line(SourceLabel, mr.text)];
    } else {
      var k := 0;
      while k < |mr.g|
        invariant 0 <= k <= |mr.g|
        invariant out == before + FlatMap(SpanLines, mr.g[..k])
      {
        out := out + [Line(SourceLabel, mr.g[k].text)];
        FlatMapSnoc(SpanLines, mr.g, k);
        k := k + 1;
      }
      assert mr.g[..k] == mr.g;
    }
  }

  /** One group's two loops (main.go:313-330): every source marker, then
      every target marker. */
  method PrintGroup(before: seq<string>, gr: Group) returns (out: seq<string>)
    ensures out == before + GroupLines(gr)
  {
    out := before;
    var tu := gr.transUnit;
    // source
    var srcs := tu.segSource.mrk;
    var j := 0;
    while j < |srcs|
      invariant 0 <= j <= |srcs|
      invariant out == before + FlatMap(SourceMrkLines, srcs[..j])
    {
      out := PrintSourceMrk(out, srcs[j]);
      FlatMapSnoc(SourceMrkLines, srcs, j);
      j := j + 1;
    }
    assert srcs[..j] == srcs;
    // target
    var tgts := tu.target.mrk;
    j := 0;
    while j < |tgts|
      invariant 0 <= j <= |tgts|
      invariant out == before + SourceLines(tu) + FlatMap(TargetMrkLines, tgts[..j])
    {
      var mr := tgts[j];
      if |mr.text| > 0 {
        out := out + [Line(TargetLabel, mr.text)];
      } else {
        out := out + [Line(TargetLabel, mr.g.text)];
      }
      FlatMapSnoc(TargetMrkLines, tgts, j);
      j := j + 1;
    }
    assert tgts[..j] == tgts;
  }

  /** The report (main.go:305-334): the header, then the loop over the
      groups, or `Empty.` when there are none. */
  method PrintReport(doc: Document) returns (out: seq<string>)
    ensures out == ReportLines(doc)
  {
    var f := doc.file;
    out := [""];
    out := out + [Line("Original:", f.original)];
    out := out + [Line("Datatype:", f.dataType)];
    out := out + [Line("SourceLanguage:", f.sourceLanguage)];
    out := out + [Line("TargetLanguage:", f.targetLanguage)];
    out := out + [""];
    var groups := f.body.group;
    if |groups| > 0 {
      var i := 0;
      while i < |groups|
        invariant 0 <= i <= |groups|
        invariant out == HeaderLines(f) + FlatMap(GroupLines, groups[..i])
      {
        out := PrintGroup(out, groups[i]);
        FlatMapSnoc(GroupLines, groups, i);
        i := i + 1;
      }
      assert groups[..i] == groups;
    } else {
      out := out + [EmptyMarker];
    }
  }

  /** After decoding (main.go:299-303): a decoding error prints its
      diagnostic and stops before any report line; a document is reported. */
  method Run(decoded: Decoded) returns (out: seq<string>)
    ensures out == Output(decoded)
  {
    if decoded.DecodeError? {
      out := [Line(DecodeErrorLabel, decoded.message)];
      return;
    }
    out := PrintReport(decoded.doc);
  }
}
