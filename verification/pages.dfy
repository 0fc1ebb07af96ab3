/** The in-memory project of main.js and the record it is reduced to before
    every save (main.js:141-148, 189-196, 333-340). */
module Pages {

  /** Per-page transcription status. main.js uses only these three; a failed
      transcription goes back to `Pending` (main.js:208). */
  datatype Status = Pending | Working | Done

  /** A decoded image. Only its `src` (a data or object URL) survives a save. */
  datatype Image = Image(src: string)

  datatype Page = Page(image: Image, transcript: string, status: Status)

  /** `{ title, createdAt, pages }`; no id is ever assigned to it. */
  datatype Project = Project(title: string, createdAt: int, pages: seq<Page>)

  datatype StoredPage = StoredPage(imageSrc: string, transcript: string, status: Status)

  datatype StorableProject = StorableProject(title: string, createdAt: int, pages: seq<StoredPage>)

  /** A fresh page for a decoded image: empty transcript, pending. */
  function NewPage(img: Image): (r: Page)
    ensures r.image == img && r.transcript == "" && r.status == Pending
  {
    Page(img, "", Pending)
  }

  function StorePage(p: Page): StoredPage {
    StoredPage(p.image.src, p.transcript, p.status)
  }

  /** The storable projection: the same title and creation time, and each page,
      in the same order, reduced to its image source, transcript and status. */
  function ToStorable(p: Project): (r: StorableProject)
    ensures r.title == p.title && r.createdAt == p.createdAt
    ensures |r.pages| == |p.pages|
    ensures forall i :: 0 <= i < |p.pages| ==>
              r.pages[i] == StoredPage(p.pages[i].image.src, p.pages[i].transcript, p.pages[i].status)
  {
    StorableProject(p.title, p.createdAt,
      seq(|p.pages|, i requires 0 <= i < |p.pages| => StorePage(p.pages[i])))
  }

  /** The project with page `i` replaced. */
  function WithPage(p: Project, i: nat, pg: Page): (r: Project)
    requires i < |p.pages|
    ensures r.title == p.title && r.createdAt == p.createdAt
    ensures |r.pages| == |p.pages| && r.pages[i] == pg
    ensures forall j :: 0 <= j < |p.pages| && j != i ==> r.pages[j] == p.pages[j]
  {
    p.(pages := p.pages[i := pg])
  }

  /** Replacing the same page twice keeps only the second replacement. */
  lemma WithPageTwice(p: Project, i: nat, first: Page, second: Page)
    requires i < |p.pages|
    ensures WithPage(WithPage(p, i, first), i, second) == WithPage(p, i, second)
  {
    assert p.pages[i := first][i := second] == p.pages[i := second];
  }

  /** Projection commutes with replacing one page: saving after a one-page
      change stores the previous record with only that page's entry replaced. */
  lemma StorableWithPage(p: Project, i: nat, pg: Page)
    requires i < |p.pages|
    ensures ToStorable(WithPage(p, i, pg))
            == ToStorable(p).(pages := ToStorable(p).pages[i := StorePage(pg)])
  {
  }

  /** Two projects with the same stored record differ at most in their image
      handles: titles, times, transcripts and statuses all survive a save. */
  lemma StorableKeepsText(p: Project, q: Project)
    requires ToStorable(p) == ToStorable(q)
    ensures p.title == q.title && p.createdAt == q.createdAt && |p.pages| == |q.pages|
    ensures forall i :: 0 <= i < |p.pages| ==>
              p.pages[i].transcript == q.pages[i].transcript && p.pages[i].status == q.pages[i].status
  {
    assert |ToStorable(p).pages| == |ToStorable(q).pages|;
    forall i | 0 <= i < |p.pages|
      ensures p.pages[i].transcript == q.pages[i].transcript && p.pages[i].status == q.pages[i].status
    {
      assert ToStorable(p).pages[i] == ToStorable(q).pages[i];
    }
  }
}
