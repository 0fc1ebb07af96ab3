/** The text each export format is built from (exporter.js): the plain-text
    file, the content inserted into a Google document, and the paragraphs of
    the Word document. Downloads, OAuth and the Docs API calls are not part of
    this model; only the strings and paragraph lists they are given are. */
module Exporter {
  import opened Wrappers
  import opened Text

  /** A page as the exporter reads it: only its transcript, which may be
      `undefined`/`null` (`None`). */
  datatype Page = Page(transcript: Option<string>)

  /** `p.transcript || ''`. */
  function Body(p: Page): string {
    p.transcript.GetOr("")
  }

  /** The heading of the page at zero-based position `i`: `Page ${i + 1}`. */
  function Heading(i: nat): (r: string)
    ensures StartsWith(r, "Page ") && r[5..] == NatToString(i + 1)
  {
    "Page " + NatToString(i + 1)
  }

  /** One page of the plain-text export: heading, blank line, body, newline. */
  function TxtBlock(i: nat, p: Page): string {
    Heading(i) + "\n\n" + Body(p) + "\n"
  }

  function TxtBlocks(pages: seq<Page>): (r: seq<string>)
    ensures |r| == |pages|
    ensures forall i :: 0 <= i < |r| ==> r[i] == TxtBlock(i, pages[i])
  {
    seq(|pages|, i requires 0 <= i < |pages| => TxtBlock(i, pages[i]))
  }

  /** The text `exportTxt` downloads: the page blocks joined by one newline.
      It is empty exactly when there are no pages, and a single page exports
      as its block alone; `TxtAppend` gives every longer export. */
  function TxtText(pages: seq<Page>): (r: string)
    ensures r == "" <==> |pages| == 0
    ensures |pages| == 1 ==> r == TxtBlock(0, pages[0])
    ensures |pages| > 0 ==> StartsWith(r, TxtBlock(0, pages[0]))
  {
    var blocks := TxtBlocks(pages);
    if |blocks| <= 1 then Join(blocks, "\n")
    else
      assert blocks[0] == TxtBlock(0, pages[0]);
      Join(blocks, "\n")
  }

  /** One page of the Google Docs content: the plain-text block plus one more newline. */
  function DocBlock(i: nat, p: Page): string {
    TxtBlock(i, p) + "\n"
  }

  function DocBlocks(pages: seq<Page>): (r: seq<string>)
    ensures |r| == |pages|
    ensures forall i :: 0 <= i < |r| ==> r[i] == DocBlock(i, pages[i])
  {
    seq(|pages|, i requires 0 <= i < |pages| => DocBlock(i, pages[i]))
  }

  /** The text `createGoogleDoc` inserts at the start of the new document:
      empty exactly when there are no pages, and starting with the first
      page's block and its extra newline. */
  function GoogleDocContent(pages: seq<Page>): (r: string)
    ensures r == "" <==> |pages| == 0
    ensures |pages| > 0 ==> StartsWith(r, TxtBlock(0, pages[0]) + "\n")
  {
    var blocks := DocBlocks(pages);
    if |blocks| <= 1 then Join(blocks, "\n")
    else
      assert blocks[0] == DocBlock(0, pages[0]);
      Join(blocks, "\n")
  }

  /** Page numbering is positional: appending a page appends one newline and
      that page's block, numbered one past the pages before it. */
  lemma TxtAppend(pages: seq<Page>, p: Page)
    requires |pages| >= 1
    ensures TxtText(pages + [p]) == TxtText(pages) + "\n" + TxtBlock(|pages|, p)
  {
    assert TxtBlocks(pages + [p]) == TxtBlocks(pages) + [TxtBlock(|pages|, p)];
    JoinAppend(TxtBlocks(pages), TxtBlock(|pages|, p), "\n");
  }

  /** The plain-text export of a prefix of the pages is a prefix of the export. */
  lemma {:induction false} TxtPrefix(pages: seq<Page>, k: nat)
    requires k <= |pages|
    ensures StartsWith(TxtText(pages), TxtText(pages[..k]))
    decreases |pages|
  {
    if k < |pages| && |pages| >= 2 {
      var init := pages[..|pages| - 1];
      TxtPrefix(init, k);
      assert init[..k] == pages[..k];
      TxtAppend(init, pages[|pages| - 1]);
      assert init + [pages[|pages| - 1]] == pages;
    } else if k < |pages| {
      assert pages[..k] == [];
    } else {
      assert pages[..k] == pages;
    }
  }

  /** A missing transcript exports exactly like an empty one: the page keeps
      its heading and gets an empty body. */
  lemma TxtMissingIsEmpty(pages: seq<Page>, i: nat)
    requires i < |pages| && pages[i].transcript.None?
    ensures TxtText(pages[i := Page(Some(""))]) == TxtText(pages)
  {
    assert TxtBlocks(pages[i := Page(Some(""))]) == TxtBlocks(pages);
  }

  /** The Google Docs content is the plain-text blocks joined by a blank line,
      with one trailing newline. */
  lemma {:induction false} GoogleDocIsDoubleSpacedTxt(pages: seq<Page>)
    requires |pages| >= 1
    ensures GoogleDocContent(pages) == Join(TxtBlocks(pages), "\n\n") + "\n"
    decreases |pages|
  {
    if |pages| >= 2 {
      var init := pages[..|pages| - 1];
      var last := pages[|pages| - 1];
      GoogleDocIsDoubleSpacedTxt(init);
      DocBlocksSnoc(pages);
      TxtBlocksSnoc(pages);
      JoinAppend(DocBlocks(init), DocBlock(|init|, last), "\n");
      JoinAppend(TxtBlocks(init), TxtBlock(|init|, last), "\n\n");
      BlankLineRegroup(Join(TxtBlocks(init), "\n\n"), TxtBlock(|init|, last));
    }
  }

  lemma TxtBlocksSnoc(pages: seq<Page>)
    requires |pages| >= 1
    ensures TxtBlocks(pages) == TxtBlocks(pages[..|pages| - 1]) + [TxtBlock(|pages| - 1, pages[|pages| - 1])]
  {
    var init := pages[..|pages| - 1];
    forall i | 0 <= i < |pages| - 1
      ensures TxtBlocks(pages)[i] == TxtBlocks(init)[i]
    {
      assert pages[i] == init[i];
    }
  }

  lemma DocBlocksSnoc(pages: seq<Page>)
    requires |pages| >= 1
    ensures DocBlocks(pages) == DocBlocks(pages[..|pages| - 1]) + [DocBlock(|pages| - 1, pages[|pages| - 1])]
  {
    var init := pages[..|pages| - 1];
    forall i | 0 <= i < |pages| - 1
      ensures DocBlocks(pages)[i] == DocBlocks(init)[i]
    {
      assert pages[i] == init[i];
    }
  }

  lemma BlankLineRegroup(j: string, b: string)
    ensures j + "\n" + "\n" + (b + "\n") == j + "\n\n" + b + "\n"
  {
  }

  // ---------------------------------------------------------------------------
  // Word document

  datatype Paragraph = Paragraph(text: string, isHeading: bool)

  datatype ExportError =
    | DocxLibraryMissing               // `window.docx` is not loaded
    | UndefinedTranscript(page: nat)   // `p.transcript.split` on an undefined transcript

  /** The section for one page: the heading paragraph, then one paragraph per
      piece of the transcript split on runs of newlines. */
  function DocxSection(i: nat, transcript: string): (r: seq<Paragraph>)
    ensures |r| >= 2
    ensures r[0] == Paragraph(Heading(i), true)
    ensures forall j :: 1 <= j < |r| ==> !r[j].isHeading && '\n' !in r[j].text
  {
    var lines := SplitNewlineRuns(transcript);
    [Paragraph(Heading(i), true)] + seq(|lines|, j requires 0 <= j < |lines| => Paragraph(lines[j], false))
  }

  function Texts(ps: seq<Paragraph>): (r: seq<string>)
    ensures |r| == |ps|
    ensures forall j :: 0 <= j < |r| ==> r[j] == ps[j].text
  {
    seq(|ps|, j requires 0 <= j < |ps| => ps[j].text)
  }

  /** The body paragraphs of a section, joined by newlines, are the transcript
      with each run of newlines collapsed to one: no text is lost or reordered. */
  lemma DocxSectionKeepsText(i: nat, transcript: string)
    ensures Join(Texts(DocxSection(i, transcript)[1..]), "\n") == CollapseNewlines(transcript)
  {
    assert Texts(DocxSection(i, transcript)[1..]) == SplitNewlineRuns(transcript);
    JoinSplitNewlineRuns(transcript);
  }

  /** The sections `exportDocx` adds, from page `from` on. It stops at the
      first page whose transcript is undefined, because `split` is called on it
      without a fallback. */
  function DocxSectionsFrom(pages: seq<Page>, from: nat): (r: Result<seq<seq<Paragraph>>, ExportError>)
    requires from <= |pages|
    ensures r.Success? <==> forall j :: from <= j < |pages| ==> pages[j].transcript.Some?
    ensures r.Success? ==> |r.value| == |pages| - from
    ensures r.Success? ==> forall j :: 0 <= j < |r.value| ==>
              r.value[j] == DocxSection(from + j, pages[from + j].transcript.value)
    ensures r.Failure? ==>
              && r.error.UndefinedTranscript?
              && from <= r.error.page < |pages|
              && pages[r.error.page].transcript.None?
              && forall j :: from <= j < r.error.page ==> pages[j].transcript.Some?
    decreases |pages| - from
  {
    if from == |pages| then Success([])
    else match pages[from].transcript
      case None => Failure(UndefinedTranscript(from))
      case Some(t) =>
        match DocxSectionsFrom(pages, from + 1)
        case Failure(e) => Failure(e)
        case Success(rest) => Success([DocxSection(from, t)] + rest)
  }

  /** `exportDocx`: fails when the library is missing, or at the first page
      with an undefined transcript; otherwise one section per page, in order. */
  function DocxSections(pages: seq<Page>, libraryLoaded: bool): (r: Result<seq<seq<Paragraph>>, ExportError>)
    ensures !libraryLoaded ==> r == Failure(DocxLibraryMissing)
    ensures libraryLoaded ==>
              (r.Success? <==> forall j :: 0 <= j < |pages| ==> pages[j].transcript.Some?)
    ensures r.Success? ==> |r.value| == |pages|
    ensures r.Success? ==> forall j :: 0 <= j < |pages| ==>
              r.value[j] == DocxSection(j, pages[j].transcript.value)
  {
    if !libraryLoaded then Failure(DocxLibraryMissing) else DocxSectionsFrom(pages, 0)
  }

  /** An undefined transcript breaks the Word export but not the plain-text
      export, which treats it as empty. */
  lemma MissingTranscriptOnlyBreaksDocx(pages: seq<Page>, i: nat)
    requires i < |pages| && pages[i].transcript.None?
    ensures DocxSections(pages, true).Failure?
    ensures TxtText(pages) == TxtText(pages[i := Page(Some(""))])
  {
    TxtMissingIsEmpty(pages, i);
  }

  /** The Word headings are the plain-text headings: each plain-text block
      starts with its section's heading text and a blank line. */
  lemma DocxHeadingsMatchTxt(pages: seq<Page>, j: nat)
    requires DocxSections(pages, true).Success? && j < |pages|
    ensures StartsWith(TxtBlocks(pages)[j], DocxSections(pages, true).value[j][0].text + "\n\n")
  {
  }
}
