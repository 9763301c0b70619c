/** The decoded SDLXLIFF document (main.go:11-284), trimmed.

    Every text field is a string; an element or attribute that is absent from
    the XML decodes to the empty string or the empty sequence, so "absent" and
    "empty" are the same value here.  The fields the report reads are the four
    `file` attributes, `body/group`, and inside each group's trans-unit the
    `mrk` elements of `seg-source` and `target`.  The other fields are kept so
    that the report can be shown not to depend on them. */
module Xliff {

  /** An `x` placeholder element: structural, never printed. */
  datatype Placeholder = Placeholder(text: string, id: string)

  /** A `value` element carrying one key/value pair of metadata. */
  datatype KeyValue = KeyValue(text: string, key: string)

  /** The `header` element, kept only in part: the report never reads it. */
  datatype Header = Header(
    text: string,
    internalFileForm: string,
    filetypeId: string,
    fileInfo: seq<KeyValue>)

  /** One `cxt` or `node` reference of a group's `cxts`. */
  datatype IdRef = IdRef(text: string, id: string)

  datatype Contexts = Contexts(text: string, cxt: seq<IdRef>, node: IdRef)

  /** A `g` inline span that may repeat, as under `source` and under a
      `seg-source/mrk` (main.go:186-194, main.go:219-227). */
  datatype InlineG = InlineG(text: string, id: string, xid: string, x: Placeholder)

  /** The untranslated `source` element: never printed. */
  datatype Source = Source(text: string, g: seq<InlineG>, x: seq<Placeholder>)

  /** An `mrk` with attributes and text only, as nested under a
      `seg-source/g` or `target/g` (main.go:205-209, main.go:239-243). */
  datatype PlainMrk = PlainMrk(text: string, mtype: string, mid: string)

  /** The single `g` directly under `seg-source` or `target`. */
  datatype WrapperG = WrapperG(text: string, id: string, mrk: seq<PlainMrk>)

  /** A segment marker of the segmented source (main.go:211-228): direct
      text, or an ordered sequence of nested `g` spans. */
  datatype SourceMrk = SourceMrk(
    text: string,
    mtype: string,
    mid: string,
    x: seq<Placeholder>,
    g: seq<InlineG>)

  datatype SegSource = SegSource(
    text: string,
    g: WrapperG,
    mrk: seq<SourceMrk>,
    x: seq<Placeholder>)

  /** The one `g` a target marker maps (main.go:253-256). */
  datatype TargetG = TargetG(text: string, id: string)

  /** A segment marker of the target (main.go:245-257): direct text, or a
      SINGLE nested `g` span. */
  datatype TargetMrk = TargetMrk(
    text: string,
    mtype: string,
    mid: string,
    x: seq<Placeholder>,
    g: TargetG)

  datatype Target = Target(
    text: string,
    g: WrapperG,
    mrk: seq<TargetMrk>,
    x: seq<Placeholder>)

  /** Per-segment match metadata (`sdl:seg`). */
  datatype Seg = Seg(
    text: string,
    id: string,
    conf: string,
    origin: string,
    originSystem: string,
    percent: string,
    structMatch: string,
    textMatch: string,
    value: seq<KeyValue>)

  datatype SegDefs = SegDefs(text: string, seg: seq<Seg>)

  datatype TransUnit = TransUnit(
    text: string,
    id: string,
    translate: string,
    source: Source,
    segSource: SegSource,
    target: Target,
    segDefs: SegDefs)

  /** A `group`: exactly one trans-unit slot (main.go:180). */
  datatype Group = Group(text: string, cxts: Contexts, transUnit: TransUnit)

  datatype Body = Body(text: string, group: seq<Group>)

  datatype File = File(
    text: string,
    original: string,
    dataType: string,
    sourceLanguage: string,
    targetLanguage: string,
    header: Header,
    body: Body)

  /** The root `xliff` element. */
  datatype Document = Document(
    text: string,
    sdl: string,
    xmlns: string,
    version: string,
    file: File)

  /** What the XML decoder hands back: a document, or an error whose message
      comes from the decoding library. */
  datatype Decoded = Decoded(doc: Document) | DecodeError(message: string)
}
