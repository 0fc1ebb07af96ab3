/** The "export all" button (main.js:240-275): one text file built from every
    saved project record. Only the text is modelled; the download and the
    dated file name are not. Date formatting is a parameter. */
module ExportAll {
  import opened Wrappers
  import opened Text
  import opened Pages

  /** `project.title || `Project ${k + 1}``. */
  function ProjectTitle(k: nat, p: StorableProject): (r: string)
    ensures r != ""
    ensures p.title != "" ==> r == p.title
    ensures p.title == "" ==> r == "Project " + NatToString(k + 1)
  {
    if p.title != "" then p.title else "Project " + NatToString(k + 1)
  }

  /** `=== ${title} ===\n`. */
  function TitleLine(k: nat, p: StorableProject): string {
    "=== " + ProjectTitle(k, p) + " ===\n"
  }

  /** `Created: ${date}\n\n`, with the date rendering left as a parameter. */
  function CreatedLine(p: StorableProject, formatDate: int -> string): string {
    "Created: " + formatDate(p.createdAt) + "\n\n"
  }

  /** `page.transcript && page.transcript.trim()`: the page has some
      non-whitespace text. */
  predicate HasText(pg: StoredPage) {
    Trim(pg.transcript) != ""
  }

  /** `--- Page ${n} ---\n`. */
  function PageMarker(n: nat): string {
    "--- Page " + NatToString(n) + " ---\n"
  }

  /** An exported page: its original one-based number and its trimmed text. */
  datatype Kept = Kept(number: nat, text: string)

  /** What an exported page contributes: its number line, its text and a
      blank line. */
  function EntryText(e: Kept): string {
    PageMarker(e.number) + e.text + "\n\n"
  }

  /** Reference definition of a project's page text: for each page with
      non-whitespace text, in order, its one-based number line, its trimmed
      text and a blank line. */
  function PagesText(pages: seq<StoredPage>): string
    decreases |pages|
  {
    if |pages| == 0 then ""
    else
      var init := pages[..|pages| - 1];
      var last := pages[|pages| - 1];
      if HasText(last) then PagesText(init) + EntryText(Kept(|pages|, Trim(last.transcript)))
      else PagesText(init)
  }

  function Section(k: nat, p: StorableProject, formatDate: int -> string): string {
    TitleLine(k, p) + CreatedLine(p, formatDate) + PagesText(p.pages) + "\n"
  }

  /** Reference definition of the exported text: the sections in record order. */
  function AllText(projects: seq<StorableProject>, formatDate: int -> string): string
    decreases |projects|
  {
    if |projects| == 0 then ""
    else AllText(projects[..|projects| - 1], formatDate) + Section(|projects| - 1, projects[|projects| - 1], formatDate)
  }

  lemma PagesTextStep(pages: seq<StoredPage>, i: nat)
    requires i < |pages|
    ensures HasText(pages[i]) ==>
              PagesText(pages[..i + 1]) == PagesText(pages[..i]) + EntryText(Kept(i + 1, Trim(pages[i].transcript)))
    ensures !HasText(pages[i]) ==> PagesText(pages[..i + 1]) == PagesText(pages[..i])
  {
    assert pages[..i + 1][..i] == pages[..i];
  }

  lemma PagesTextWhole(pages: seq<StoredPage>)
    ensures PagesText(pages[..|pages|]) == PagesText(pages)
  {
    assert pages[..|pages|] == pages;
  }

  lemma AllTextStep(projects: seq<StorableProject>, formatDate: int -> string, k: nat)
    requires k < |projects|
    ensures AllText(projects[..k + 1], formatDate) == AllText(projects[..k], formatDate) + Section(k, projects[k], formatDate)
  {
    assert projects[..k + 1][..k] == projects[..k];
  }

  lemma AllTextWhole(projects: seq<StorableProject>, formatDate: int -> string)
    ensures AllText(projects[..|projects|], formatDate) == AllText(projects, formatDate)
  {
    assert projects[..|projects|] == projects;
  }

  lemma AppendAssoc(a: string, b: string, c: string)
    ensures a + b + c == a + (b + c)
  {
  }

  lemma SectionAppend(before: string, k: nat, p: StorableProject, formatDate: int -> string)
    ensures before + TitleLine(k, p) + CreatedLine(p, formatDate) + PagesText(p.pages) + "\n"
            == before + Section(k, p, formatDate)
  {
    var t, c, b := TitleLine(k, p), CreatedLine(p, formatDate), PagesText(p.pages);
    AppendAssoc(before, t, c);
    AppendAssoc(before, t + c, b);
    AppendAssoc(before, t + c + b, "\n");
  }

  lemma EntryAppend(prior: string, e: Kept)
    ensures prior + PageMarker(e.number) + e.text + "\n\n" == prior + EntryText(e)
  {
  }

  /** The body of the inner loop: appends one page's entry when the page has
      non-whitespace text. */
  method AppendPageEntry(text: string, i: nat, page: StoredPage) returns (r: string)
    ensures HasText(page) ==> r == text + EntryText(Kept(i + 1, Trim(page.transcript)))
    ensures !HasText(page) ==> r == text
  {
    r := text;
    var trimmed := Trim(page.transcript);
    if trimmed != "" {
      r := r + PageMarker(i + 1);
      r := r + trimmed + "\n\n";
      EntryAppend(text, Kept(i + 1, trimmed));
    }
  }

  /** The inner loop of the export: appends the entry of every page with
      non-whitespace text to `text`. */
  method AppendPageEntries(text: string, pages: seq<StoredPage>) returns (r: string)
    ensures r == text + PagesText(pages)
  {
    r := text;
    var i := 0;
    while i < |pages|
      invariant 0 <= i <= |pages|
      invariant r == text + PagesText(pages[..i])
    {
      r := AppendPageEntry(r, i, pages[i]);
      PagesTextStep(pages, i);
      if HasText(pages[i]) {
        AppendAssoc(text, PagesText(pages[..i]), EntryText(Kept(i + 1, Trim(pages[i].transcript))));
      }
      i := i + 1;
    }
    PagesTextWhole(pages);
  }

  /** The text of the export-all file, built as main.js builds it, by appending
      to one string in two nested loops. There is nothing to export when there
      are no records; with at least one record the text starts with a title
      line, so the source's second emptiness check never fires. */
  method ExportAllText(projects: seq<StorableProject>, formatDate: int -> string) returns (r: Option<string>)
    ensures r.None? <==> |projects| == 0
    ensures r.Some? ==> r.value == AllText(projects, formatDate)
    ensures r.Some? ==> Trim(r.value) != ""
  {
    if |projects| == 0 {
      return None;
    }
    var allText := "";
    var k := 0;
    while k < |projects|
      invariant 0 <= k <= |projects|
      invariant allText == AllText(projects[..k], formatDate)
      invariant k > 0 ==> |allText| > 0 && allText[0] == '='
    {
      var project := projects[k];
      var before := allText;
      allText := allText + TitleLine(k, project);
      allText := allText + CreatedLine(project, formatDate);
      allText := AppendPageEntries(allText, project.pages);
      allText := allText + "\n";
      SectionAppend(before, k, project, formatDate);
      AllTextStep(projects, formatDate, k);
      k := k + 1;
    }
    AllTextWhole(projects, formatDate);
    assert !IsSpace(allText[0]);
    assert Trim(allText) != "";
    return Some(allText);
  }

  // ---------------------------------------------------------------------------
  // Which pages are exported

  /** `e` names a page of `pages` with non-whitespace text, under its
      one-based number, with that page's trimmed text. */
  predicate IsKeptPage(pages: seq<StoredPage>, e: Kept) {
    1 <= e.number <= |pages| && HasText(pages[e.number - 1])
    && e.text == Trim(pages[e.number - 1].transcript)
  }

  /** Reference definition of the exported pages of one project: the pages
      with non-whitespace text, in order, under their original numbers. */
  function KeptPages(pages: seq<StoredPage>): (r: seq<Kept>)
    ensures |r| <= |pages|
    decreases |pages|
  {
    if |pages| == 0 then []
    else
      var init := pages[..|pages| - 1];
      var last := pages[|pages| - 1];
      if HasText(last) then KeptPages(init) + [Kept(|pages|, Trim(last.transcript))] else KeptPages(init)
  }

  /** Every kept entry names a page with text, under its number, with its
      trimmed text. */
  lemma {:induction false} KeptPagesSound(pages: seq<StoredPage>)
    ensures forall j :: 0 <= j < |KeptPages(pages)| ==> IsKeptPage(pages, KeptPages(pages)[j])
    decreases |pages|
  {
    if |pages| > 0 {
      var init := pages[..|pages| - 1];
      var before := KeptPages(init);
      KeptPagesSound(init);
      forall j | 0 <= j < |before|
        ensures IsKeptPage(pages, before[j])
      {
        assert IsKeptPage(init, before[j]);
        assert pages[before[j].number - 1] == init[before[j].number - 1];
      }
    }
  }

  /** Kept entries appear in page order, each page at most once. */
  lemma {:induction false} KeptPagesOrdered(pages: seq<StoredPage>)
    ensures forall j :: 0 < j < |KeptPages(pages)| ==> KeptPages(pages)[j - 1].number < KeptPages(pages)[j].number
    decreases |pages|
  {
    if |pages| > 0 {
      var init := pages[..|pages| - 1];
      var before := KeptPages(init);
      KeptPagesOrdered(init);
      if |before| > 0 {
        KeptPagesSound(init);
        assert IsKeptPage(init, before[|before| - 1]);
      }
    }
  }

  /** Every page with non-whitespace text is kept. */
  lemma {:induction false} KeptPagesComplete(pages: seq<StoredPage>, i: nat)
    requires i < |pages| && HasText(pages[i])
    ensures Kept(i + 1, Trim(pages[i].transcript)) in KeptPages(pages)
    decreases |pages|
  {
    var init := pages[..|pages| - 1];
    if i < |pages| - 1 {
      assert init[i] == pages[i];
      KeptPagesComplete(init, i);
    }
  }

  /** A page is exported, under its number and with its trimmed text, exactly
      when it has non-whitespace text. */
  lemma KeptPageIff(pages: seq<StoredPage>, i: nat)
    requires i < |pages|
    ensures HasText(pages[i]) <==> Kept(i + 1, Trim(pages[i].transcript)) in KeptPages(pages)
  {
    if HasText(pages[i]) {
      KeptPagesComplete(pages, i);
    } else {
      KeptPagesSound(pages);
      var kept := KeptPages(pages);
      forall j | 0 <= j < |kept|
        ensures kept[j] != Kept(i + 1, Trim(pages[i].transcript))
      {
        assert IsKeptPage(pages, kept[j]);
      }
    }
  }

  /** Appending a record appends its section, numbered after the earlier records. */
  lemma AllTextAppend(projects: seq<StorableProject>, p: StorableProject, formatDate: int -> string)
    ensures AllText(projects + [p], formatDate) == AllText(projects, formatDate) + Section(|projects|, p, formatDate)
  {
    assert (projects + [p])[..|projects|] == projects;
  }

  /** The text of a list of kept pages, in order. */
  function KeptText(es: seq<Kept>): string
    decreases |es|
  {
    if |es| == 0 then "" else KeptText(es[..|es| - 1]) + EntryText(es[|es| - 1])
  }

  /** A project's page text is exactly its kept pages, each under a
      `--- Page n ---` line with its trimmed text: blank pages contribute
      nothing and the kept ones keep their original numbers. */
  lemma {:induction false} PagesTextIsKeptText(pages: seq<StoredPage>)
    ensures PagesText(pages) == KeptText(KeptPages(pages))
    decreases |pages|
  {
    if |pages| > 0 {
      var n := |pages|;
      var init := pages[..n - 1];
      var last := pages[n - 1];
      PagesTextIsKeptText(init);
      var before := KeptPages(init);
      if HasText(last) {
        var e := Kept(n, Trim(last.transcript));
        assert (before + [e])[..|before|] == before;
      }
    }
  }

  /** Each project section starts with its title line. */
  lemma SectionStartsWithTitle(k: nat, p: StorableProject, formatDate: int -> string)
    ensures StartsWith(Section(k, p, formatDate), "=== " + ProjectTitle(k, p) + " ===\n")
  {
    var t := "=== " + ProjectTitle(k, p) + " ===\n";
    assert Section(k, p, formatDate) == t + ("Created: " + formatDate(p.createdAt) + "\n\n"
                                             + PagesText(p.pages) + "\n");
  }
}
