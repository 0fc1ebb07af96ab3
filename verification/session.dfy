/** The page-session controller of main.js as a state-transition system. Each
    event handler is one atomic step from an `App` to the next; what the
    browser, the rasteriser, the transcription service and the database answer
    during the step is passed in as a parameter. */
module Session {
  import opened Wrappers
  import opened Text
  import opened Pages
  import Storage
  import OpenAI
  import Exporter
  import ExportAll

  datatype View = ImageView | TranscriptView

  /** The module-level `state` object of main.js, together with whether the
      export button is enabled: `handleFiles` disables it on entry and enables
      it again only after a saved ingestion, and a disabled button fires no
      click. */
  datatype UiState = UiState(project: Option<Project>, currentPageIndex: nat, currentView: View, exportEnabled: bool)

  /** Everything a handler reads or writes: the UI state, the project records
      saved so far (a project never receives an id, so every save adds a new
      record, in insertion order) and the settings in local storage. */
  datatype App = App(ui: UiState, saved: seq<StorableProject>, config: Storage.Stored)

  /** The result of a step that may end in `showPage`: the new application
      state and whether `showPage` started an automatic transcription of the
      page it displayed (it is not awaited, so it runs as a later step). */
  datatype Shown = Shown(app: App, transcribe: bool)

  /** The current index addresses a page whenever there is one to address. */
  predicate IndexInBounds(ui: UiState) {
    ui.project.Some? && |ui.project.value.pages| > 0 ==> ui.currentPageIndex < |ui.project.value.pages|
  }

  /** A page that has no transcript yet and is not being transcribed. */
  predicate NeedsTranscription(p: Page) {
    p.transcript == "" && p.status == Pending
  }

  /** The current page, when there is one. */
  function CurrentPage(ui: UiState): Option<Page> {
    if ui.project.Some? && ui.currentPageIndex < |ui.project.value.pages|
    then Some(ui.project.value.pages[ui.currentPageIndex]) else None
  }

  /** Records the project after a successful save. */
  function Saved(app: App, p: Project, saveOk: bool): (r: seq<StorableProject>)
    ensures saveOk ==> r == app.saved + [ToStorable(p)]
    ensures !saveOk ==> r == app.saved
  {
    if saveOk then app.saved + [ToStorable(p)] else app.saved
  }

  // ---------------------------------------------------------------------------
  // Showing and navigating pages

  /** `showPage(pageIndex)`: a no-op without a project or with an index
      outside the pages; otherwise selects that page, and starts a
      transcription when the page has no transcript and is pending. */
  function ShowPage(app: App, i: int): (r: Shown)
    ensures app.ui.project.None? || i < 0 || i >= |app.ui.project.value.pages| ==> r == Shown(app, false)
    ensures app.ui.project.Some? && 0 <= i < |app.ui.project.value.pages| ==>
              && r.app == app.(ui := app.ui.(currentPageIndex := i))
              && (r.transcribe <==> NeedsTranscription(app.ui.project.value.pages[i]))
    ensures r.app.ui.project == app.ui.project && r.app.saved == app.saved
    ensures IndexInBounds(app.ui) ==> IndexInBounds(r.app.ui)
  {
    match app.ui.project
    case None => Shown(app, false)
    case Some(p) =>
      if i < 0 || i >= |p.pages| then Shown(app, false)
      else Shown(app.(ui := app.ui.(currentPageIndex := i)), NeedsTranscription(p.pages[i]))
  }

  /** The previous-page button: steps back only when not on the first page. */
  function Prev(app: App): (r: Shown)
    ensures app.ui.currentPageIndex == 0 ==> r == Shown(app, false)
    ensures app.ui.project.None? || app.ui.currentPageIndex > |app.ui.project.value.pages| ==> r == Shown(app, false)
    ensures app.ui.project.Some? && 0 < app.ui.currentPageIndex <= |app.ui.project.value.pages| ==>
              && r.app == app.(ui := app.ui.(currentPageIndex := app.ui.currentPageIndex - 1))
              && (r.transcribe <==> NeedsTranscription(app.ui.project.value.pages[app.ui.currentPageIndex - 1]))
    ensures IndexInBounds(app.ui) ==> IndexInBounds(r.app.ui)
  {
    if app.ui.currentPageIndex > 0 then ShowPage(app, app.ui.currentPageIndex - 1) else Shown(app, false)
  }

  /** The next-page button: steps forward only when not on the last page. */
  function Next(app: App): (r: Shown)
    ensures app.ui.project.None? ==> r == Shown(app, false)
    ensures app.ui.project.Some? && app.ui.currentPageIndex + 1 >= |app.ui.project.value.pages| ==>
              r == Shown(app, false)
    ensures app.ui.project.Some? && app.ui.currentPageIndex + 1 < |app.ui.project.value.pages| ==>
              && r.app == app.(ui := app.ui.(currentPageIndex := app.ui.currentPageIndex + 1))
              && (r.transcribe <==> NeedsTranscription(app.ui.project.value.pages[app.ui.currentPageIndex + 1]))
    ensures IndexInBounds(app.ui) ==> IndexInBounds(r.app.ui)
  {
    match app.ui.project
    case None => Shown(app, false)
    case Some(p) =>
      if app.ui.currentPageIndex < |p.pages| - 1 then ShowPage(app, app.ui.currentPageIndex + 1)
      else Shown(app, false)
  }

  /** What `updatePageNavigation` displays. */
  datatype NavBar = NavHidden | NavVisible(indicator: string, prevDisabled: bool, nextDisabled: bool)

  function Navigation(ui: UiState): (r: NavBar)
    ensures r.NavHidden? <==> ui.project.None? || |ui.project.value.pages| <= 1
    ensures r.NavVisible? ==> (r.prevDisabled <==> ui.currentPageIndex == 0)
    ensures r.NavVisible? ==> (r.nextDisabled <==> ui.currentPageIndex == |ui.project.value.pages| - 1)
  {
    match ui.project
    case None => NavHidden
    case Some(p) =>
      if |p.pages| <= 1 then NavHidden
      else NavVisible("Page " + NatToString(ui.currentPageIndex + 1) + " of " + NatToString(|p.pages|),
                      ui.currentPageIndex == 0, ui.currentPageIndex == |p.pages| - 1)
  }

  /** The navigation display agrees with the buttons' handlers: a button is
      disabled exactly when clicking it would not move, and an enabled button
      moves the index by exactly one. */
  lemma NavigationMatchesButtons(app: App)
    requires IndexInBounds(app.ui) && Navigation(app.ui).NavVisible?
    ensures Navigation(app.ui).prevDisabled <==> Prev(app).app == app
    ensures Navigation(app.ui).nextDisabled <==> Next(app).app == app
    ensures !Navigation(app.ui).prevDisabled ==>
              Prev(app).app.ui.currentPageIndex + 1 == app.ui.currentPageIndex
    ensures !Navigation(app.ui).nextDisabled ==>
              Next(app).app.ui.currentPageIndex == app.ui.currentPageIndex + 1
  {
    var n := |app.ui.project.value.pages|;
    if app.ui.currentPageIndex > 0 {
      assert Prev(app).app.ui.currentPageIndex != app.ui.currentPageIndex;
    }
    if app.ui.currentPageIndex + 1 < n {
      assert Next(app).app.ui.currentPageIndex != app.ui.currentPageIndex;
    }
  }

  /** The image / transcript toggle. */
  function SetView(app: App, v: View): (r: App)
    ensures r.ui.currentView == v
    ensures r.ui.exportEnabled == app.ui.exportEnabled
    ensures r.ui.project == app.ui.project && r.ui.currentPageIndex == app.ui.currentPageIndex
    ensures r.saved == app.saved && r.config == app.config
  {
    app.(ui := app.ui.(currentView := v))
  }

  // ---------------------------------------------------------------------------
  // Ingesting a file

  datatype File = File(name: string, mimeType: string)

  /** What each loader would produce for the file: the rasterised pages of a
      PDF and the decoded image of an image file; `None` when it fails. */
  datatype Loaders = Loaders(pdf: Option<seq<Image>>, image: Option<Image>)

  datatype Loaded = Unsupported | LoadFailed | Decoded(pages: seq<Page>)

  predicate IsPdf(f: File) {
    f.mimeType == "application/pdf"
  }

  predicate IsImage(f: File) {
    StartsWith(f.mimeType, "image/")
  }

  /** The pages built from a file: one fresh page per rasterised PDF page, in
      order, or exactly one for an image; other types are unsupported. */
  function LoadPages(f: File, loaders: Loaders): (r: Loaded)
    ensures r.Unsupported? <==> !IsPdf(f) && !IsImage(f)
    ensures IsPdf(f) && loaders.pdf.Some? ==>
              && r.Decoded?
              && |r.pages| == |loaders.pdf.value|
              && forall i :: 0 <= i < |r.pages| ==> r.pages[i] == NewPage(loaders.pdf.value[i])
    ensures !IsPdf(f) && IsImage(f) && loaders.image.Some? ==>
              r == Decoded([NewPage(loaders.image.value)])
    ensures r.LoadFailed? <==> (IsPdf(f) && loaders.pdf.None?) || (!IsPdf(f) && IsImage(f) && loaders.image.None?)
  {
    if IsPdf(f) then
      match loaders.pdf
      case Some(images) => Decoded(seq(|images|, i requires 0 <= i < |images| => NewPage(images[i])))
      case None => LoadFailed
    else if IsImage(f) then
      match loaders.image
      case Some(img) => Decoded([NewPage(img)])
      case None => LoadFailed
    else Unsupported
  }

  /** `handleFiles(files)`: the export button is disabled first, then only the
      first file is read. An unsupported or unreadable file changes nothing
      else. Otherwise the project is replaced by one titled with the file name
      and saved; after a successful save its first page is shown and export is
      enabled again. If the save fails the new project stays in place, no page
      is shown and export stays disabled. */
  function HandleFiles(app: App, files: seq<File>, loaders: Loaders, now: int, saveOk: bool): (r: Shown)
    ensures |files| == 0 ==> r == Shown(app.(ui := app.ui.(exportEnabled := false)), false)
    ensures |files| > 0 && !LoadPages(files[0], loaders).Decoded? ==>
              r == Shown(app.(ui := app.ui.(exportEnabled := false)), false)
    ensures |files| > 0 && LoadPages(files[0], loaders).Decoded? ==>
              var p := Project(files[0].name, now, LoadPages(files[0], loaders).pages);
              && r.app.ui.project == Some(p)
              && r.app.saved == Saved(app, p, saveOk)
              && r.app.ui.currentView == app.ui.currentView
              && r.app.ui.exportEnabled == saveOk
    ensures !saveOk ==> !r.transcribe && r.app.ui.currentPageIndex == app.ui.currentPageIndex && !r.app.ui.exportEnabled
    ensures r.app.config == app.config
  {
    var disabled := app.(ui := app.ui.(exportEnabled := false));
    if |files| == 0 then Shown(disabled, false)
    else
      var f := files[0];
      match LoadPages(f, loaders)
      case Decoded(pages) =>
        var p := Project(f.name, now, pages);
        var app' := App(disabled.ui.(project := Some(p)), Saved(app, p, saveOk), app.config);
        if saveOk then
          var shown := ShowPage(app', 0);
          Shown(shown.app.(ui := shown.app.ui.(exportEnabled := true)), shown.transcribe)
        else Shown(app', false)
      case _ => Shown(disabled, false)
  }

  /** A successfully ingested and saved file shows its first page and, since
      that page is fresh, starts transcribing it; the index is then in bounds. */
  lemma IngestShowsFirstPage(app: App, files: seq<File>, loaders: Loaders, now: int)
    requires |files| > 0 && LoadPages(files[0], loaders).Decoded?
    requires |LoadPages(files[0], loaders).pages| > 0
    ensures var r := HandleFiles(app, files, loaders, now, true);
            r.app.ui.currentPageIndex == 0 && r.transcribe && IndexInBounds(r.app.ui)
  {
    assert NeedsTranscription(LoadPages(files[0], loaders).pages[0]);
  }

  /** With a successful save, ingestion keeps the index in bounds whatever the
      previous index was. */
  lemma IngestKeepsIndexInBounds(app: App, files: seq<File>, loaders: Loaders, now: int)
    requires IndexInBounds(app.ui)
    ensures IndexInBounds(HandleFiles(app, files, loaders, now, true).app.ui)
  {
    if |files| > 0 && LoadPages(files[0], loaders).Decoded? && |LoadPages(files[0], loaders).pages| > 0 {
      IngestShowsFirstPage(app, files, loaders, now);
    }
  }

  /** When the save fails, `showPage(0)` is skipped and the index left over
      from the previous project can point past the new project's pages. */
  lemma IngestFailedSaveLeavesStaleIndex()
    ensures var prior := Project("a.pdf", 0, [NewPage(Image("p1")), NewPage(Image("p2"))]);
            var app := App(UiState(Some(prior), 1, ImageView, true), [], Storage.Absent);
            var r := HandleFiles(app, [File("b.png", "image/png")], Loaders(None, Some(Image("b"))), 1, false);
            IndexInBounds(app.ui) && !IndexInBounds(r.app.ui)
  {
    var r := HandleFiles(App(UiState(Some(Project("a.pdf", 0, [NewPage(Image("p1")), NewPage(Image("p2"))])), 1, ImageView, true), [], Storage.Absent),
                         [File("b.png", "image/png")], Loaders(None, Some(Image("b"))), 1, false);
    assert IsImage(File("b.png", "image/png"));
    assert |r.app.ui.project.value.pages| == 1;
  }

  // ---------------------------------------------------------------------------
  // Transcribing the current page

  function ConfigValue(c: Storage.Config, key: string): (r: Option<string>)
    ensures r.Some? <==> key in c
    ensures r.Some? ==> r.value == c[key]
  {
    if key in c then Some(c[key]) else None
  }

  /** The stored API key, when it is present and non-empty. */
  function UsableApiKey(stored: Storage.Stored): Option<string> {
    var key := ConfigValue(Storage.GetConfig(stored), Storage.ApiKey);
    if key.Some? && key.value != "" then key else None
  }

  /** The state while a transcription is in flight: the page it was started
      for and the request sent. */
  datatype Begun = NotBegun | Begun(app: App, page: nat, request: OpenAI.Request)

  /** The synchronous start of `transcribeCurrentPage`: without a usable key
      nothing happens; otherwise the current page turns `Working` and the
      request is built from the stored model and prompt and the canvas image. */
  function BeginTranscription(app: App, dataUrl: string): (r: Begun)
    ensures r.Begun? <==> UsableApiKey(app.config).Some? && CurrentPage(app.ui).Some?
    ensures r.Begun? ==>
              var p := app.ui.project.value;
              var i := app.ui.currentPageIndex;
              && r.page == i
              && r.app == app.(ui := app.ui.(project := Some(WithPage(p, i, p.pages[i].(status := Working)))))
              && r.request == OpenAI.BuildRequest(dataUrl, UsableApiKey(app.config).value,
                   ConfigValue(Storage.GetConfig(app.config), Storage.Model),
                   ConfigValue(Storage.GetConfig(app.config), Storage.Prompt))
  {
    var cfg := Storage.GetConfig(app.config);
    match UsableApiKey(app.config)
    case None => NotBegun
    case Some(key) =>
      match app.ui.project
      case None => NotBegun
      case Some(p) =>
        var i := app.ui.currentPageIndex;
        if i >= |p.pages| then NotBegun
        else
          var request := OpenAI.BuildRequest(dataUrl, key, ConfigValue(cfg, Storage.Model), ConfigValue(cfg, Storage.Prompt));
          Begun(app.(ui := app.ui.(project := Some(WithPage(p, i, p.pages[i].(status := Working))))), i, request)
  }

  /** The rest of `transcribeCurrentPage` once the service has answered: on a
      reply the page takes the text and turns `Done`, the project is saved and
      the transcript view shown; any failure, including a failed save after
      the text was stored, turns the page back to `Pending`. */
  function FinishTranscription(app: App, i: nat, res: OpenAI.Response, saveOk: bool): (r: App)
    ensures r.config == app.config
  {
    match app.ui.project
    case None => app
    case Some(p) =>
      if i >= |p.pages| then app
      else
        var page := p.pages[i];
        match OpenAI.DecodeResponse(res)
        case Failure(_) =>
          app.(ui := app.ui.(project := Some(WithPage(p, i, page.(status := Pending)))))
        case Success(text) =>
          if saveOk then
            var done := WithPage(p, i, page.(transcript := text, status := Done));
            App(app.ui.(project := Some(done), currentView := TranscriptView), app.saved + [ToStorable(done)], app.config)
          else
            app.(ui := app.ui.(project := Some(WithPage(p, i, page.(transcript := text, status := Pending)))))
  }

  /** `transcribeCurrentPage` as one step. It keeps the settings, the index,
      the export button, the project's title and time and every page but the
      current one, and saving only ever appends the updated project's record.
      What happens to the current page in each case is stated by the lemmas
      below. */
  function TranscribeCurrentPage(app: App, dataUrl: string, res: OpenAI.Response, saveOk: bool): (r: App)
    ensures r.config == app.config
    ensures r.ui.currentPageIndex == app.ui.currentPageIndex && r.ui.exportEnabled == app.ui.exportEnabled
    ensures app.ui.project.None? ==> r == app
    ensures app.ui.project.Some? ==>
              var p := app.ui.project.value;
              && r.ui.project.Some?
              && r.ui.project.value.title == p.title && r.ui.project.value.createdAt == p.createdAt
              && |r.ui.project.value.pages| == |p.pages|
              && forall j :: 0 <= j < |p.pages| && j != app.ui.currentPageIndex ==>
                   r.ui.project.value.pages[j] == p.pages[j]
    ensures r.saved == app.saved || (r.ui.project.Some? && r.saved == app.saved + [ToStorable(r.ui.project.value)])
  {
    match BeginTranscription(app, dataUrl)
    case NotBegun => app
    case Begun(a, i, _) => FinishTranscription(a, i, res, saveOk)
  }

  /** Without a usable API key nothing changes. */
  lemma TranscribeWithoutKey(app: App, dataUrl: string, res: OpenAI.Response, saveOk: bool)
    requires UsableApiKey(app.config).None?
    ensures TranscribeCurrentPage(app, dataUrl, res, saveOk) == app
  {
  }

  /** On a reply that is saved, the current page gets exactly the trimmed
      reply text and turns `Done`, the transcript view is shown and the saved
      record is the updated project; no other page changes. */
  lemma TranscribeSuccess(app: App, dataUrl: string, res: OpenAI.Response, text: string)
    requires UsableApiKey(app.config).Some? && CurrentPage(app.ui).Some?
    requires OpenAI.DecodeResponse(res) == Success(text)
    ensures var r := TranscribeCurrentPage(app, dataUrl, res, true);
            var p := app.ui.project.value;
            var i := app.ui.currentPageIndex;
            var done := WithPage(p, i, p.pages[i].(transcript := text, status := Done));
            && r.ui == app.ui.(project := Some(done), currentView := TranscriptView)
            && r.saved == app.saved + [ToStorable(done)]
    ensures Trim(text) == text
  {
    var p := app.ui.project.value;
    var i := app.ui.currentPageIndex;
    WithPageTwice(p, i, p.pages[i].(status := Working), p.pages[i].(transcript := text, status := Done));
  }

  /** A failed request turns the page back to `Pending` with its transcript
      untouched; nothing is saved and the view stays. */
  lemma TranscribeFailure(app: App, dataUrl: string, res: OpenAI.Response, saveOk: bool)
    requires UsableApiKey(app.config).Some? && CurrentPage(app.ui).Some?
    requires OpenAI.DecodeResponse(res).Failure?
    ensures var r := TranscribeCurrentPage(app, dataUrl, res, saveOk);
            var p := app.ui.project.value;
            var i := app.ui.currentPageIndex;
            && r.ui == app.ui.(project := Some(WithPage(p, i, p.pages[i].(status := Pending))))
            && r.saved == app.saved
  {
    var p := app.ui.project.value;
    var i := app.ui.currentPageIndex;
    WithPageTwice(p, i, p.pages[i].(status := Working), p.pages[i].(status := Pending));
  }

  /** A failed save after a reply keeps the new transcript but turns the page
      back to `Pending`; the view stays and nothing is recorded. */
  lemma TranscribeSaveFailure(app: App, dataUrl: string, res: OpenAI.Response, text: string)
    requires UsableApiKey(app.config).Some? && CurrentPage(app.ui).Some?
    requires OpenAI.DecodeResponse(res) == Success(text)
    ensures var r := TranscribeCurrentPage(app, dataUrl, res, false);
            var p := app.ui.project.value;
            var i := app.ui.currentPageIndex;
            && r.ui == app.ui.(project := Some(WithPage(p, i, p.pages[i].(transcript := text, status := Pending))))
            && r.saved == app.saved
  {
    var p := app.ui.project.value;
    var i := app.ui.currentPageIndex;
    WithPageTwice(p, i, p.pages[i].(status := Working), p.pages[i].(transcript := text, status := Pending));
  }

  /** No page is `Working`. */
  predicate Settled(ui: UiState) {
    ui.project.Some? ==> forall i :: 0 <= i < |ui.project.value.pages| ==> ui.project.value.pages[i].status != Working
  }

  /** `Working` is transient: a transcription step ends with the page `Done`
      or `Pending`, never `Working`. */
  lemma TranscribeEndsSettled(app: App, dataUrl: string, res: OpenAI.Response, saveOk: bool)
    requires Settled(app.ui)
    ensures Settled(TranscribeCurrentPage(app, dataUrl, res, saveOk).ui)
  {
  }

  // ---------------------------------------------------------------------------
  // Editing and exporting the current project

  /** The transcript `input` handler: sets the current page's transcript to the
      text area's value and saves. Its status and every other page are
      unchanged. Without a project the handler returns at once; with an index
      that addresses no page it throws before changing anything. */
  function EditTranscript(app: App, text: string, saveOk: bool): (r: App)
    ensures CurrentPage(app.ui).None? ==> r == app
    ensures CurrentPage(app.ui).Some? ==>
              var p := app.ui.project.value;
              var i := app.ui.currentPageIndex;
              && r.ui == app.ui.(project := r.ui.project)
              && r.ui.project.Some?
              && r.ui.project.value.title == p.title && r.ui.project.value.createdAt == p.createdAt
              && |r.ui.project.value.pages| == |p.pages|
              && r.ui.project.value.pages[i].transcript == text
              && r.ui.project.value.pages[i].status == p.pages[i].status
              && r.ui.project.value.pages[i].image == p.pages[i].image
              && (forall j :: 0 <= j < |p.pages| && j != i ==> r.ui.project.value.pages[j] == p.pages[j])
              && r.saved == Saved(app, r.ui.project.value, saveOk)
    ensures r.config == app.config
  {
    match CurrentPage(app.ui)
    case None => app
    case Some(page) =>
      var p := app.ui.project.value;
      var edited := WithPage(p, app.ui.currentPageIndex, page.(transcript := text));
      App(app.ui.(project := Some(edited)), Saved(app, edited, saveOk), app.config)
  }

  /** The "export all" text over the saved records after a saved edit: the
      earlier text followed by one section for the edited project, in which
      the edited page appears, under its one-based number and with the new
      text trimmed, exactly when that text is not blank. */
  lemma ExportAllAfterSavedEdit(app: App, text: string, formatDate: int -> string)
    requires CurrentPage(app.ui).Some?
    ensures var r := EditTranscript(app, text, true);
            var rec := r.saved[|r.saved| - 1];
            && |r.saved| == |app.saved| + 1
            && ExportAll.AllText(r.saved, formatDate)
               == ExportAll.AllText(app.saved, formatDate) + ExportAll.Section(|app.saved|, rec, formatDate)
            && (Trim(text) != "" <==>
                ExportAll.Kept(app.ui.currentPageIndex + 1, Trim(text)) in ExportAll.KeptPages(rec.pages))
  {
    var r := EditTranscript(app, text, true);
    var i := app.ui.currentPageIndex;
    var rec := r.saved[|r.saved| - 1];
    assert r.saved == app.saved + [rec];
    ExportAll.AllTextAppend(app.saved, rec, formatDate);
    assert rec.pages[i].transcript == text;
    ExportAll.KeptPageIff(rec.pages, i);
  }

  /** The record an edit saves is the record of the project before the edit
      with only the current page's transcript replaced. */
  lemma EditSavesOnePageChange(app: App, text: string)
    requires CurrentPage(app.ui).Some?
    ensures var p := app.ui.project.value;
            var i := app.ui.currentPageIndex;
            var before := ToStorable(p);
            EditTranscript(app, text, true).saved
            == app.saved + [before.(pages := before.pages[i := before.pages[i].(transcript := text)])]
  {
    var p := app.ui.project.value;
    var i := app.ui.currentPageIndex;
    StorableWithPage(p, i, p.pages[i].(transcript := text));
  }

  /** The pages handed to `exportTxt`: every in-memory transcript is a string. */
  function ExportPages(p: Project): (r: seq<Exporter.Page>)
    ensures |r| == |p.pages|
    ensures forall i :: 0 <= i < |r| ==> r[i].transcript == Some(p.pages[i].transcript)
  {
    seq(|p.pages|, i requires 0 <= i < |p.pages| => Exporter.Page(Some(p.pages[i].transcript)))
  }

  /** The export button: nothing without a project or while the button is
      disabled, otherwise the plain-text export of the project's pages, one
      block per page carrying that page's transcript. */
  function ExportCurrent(app: App): (r: Option<string>)
    ensures r.Some? <==> app.ui.project.Some? && app.ui.exportEnabled
    ensures r.Some? ==> r.value == Exporter.TxtText(ExportPages(app.ui.project.value))
    ensures r.Some? ==> (r.value == "" <==> |app.ui.project.value.pages| == 0)
    ensures r.Some? ==> forall i :: 0 <= i < |app.ui.project.value.pages| ==>
              Exporter.TxtBlocks(ExportPages(app.ui.project.value))[i]
              == Exporter.Heading(i) + "\n\n" + app.ui.project.value.pages[i].transcript + "\n"
  {
    match app.ui.project
    case None => None
    case Some(p) => if app.ui.exportEnabled then Some(Exporter.TxtText(ExportPages(p))) else None
  }

  /** Exporting after an edit gives the blocks of the export before it with
      only the edited page's block replaced: same heading, new text. */
  lemma ExportAfterEdit(app: App, text: string, saveOk: bool)
    requires CurrentPage(app.ui).Some?
    ensures var p := app.ui.project.value;
            var i := app.ui.currentPageIndex;
            var q := EditTranscript(app, text, saveOk).ui.project.value;
            Exporter.TxtBlocks(ExportPages(q))
            == Exporter.TxtBlocks(ExportPages(p))[i := Exporter.Heading(i) + "\n\n" + text + "\n"]
  {
  }

  /** Export is gated by ingestion: after a file is decoded the new project can
      be exported exactly when its save succeeded. */
  lemma IngestGatesExport(app: App, files: seq<File>, loaders: Loaders, now: int, saveOk: bool)
    requires |files| > 0 && LoadPages(files[0], loaders).Decoded?
    ensures var r := HandleFiles(app, files, loaders, now, saveOk).app;
            r.ui.project.Some? && (ExportCurrent(r).Some? <==> saveOk)
  {
  }

  // ---------------------------------------------------------------------------
  // Settings dialog

  datatype SettingsForm = SettingsForm(apiKey: string, model: string, prompt: string)

  /** Opening the dialog: fields show the stored values; an empty or missing
      model shows the default model, an empty or missing prompt leaves the
      prompt field as it was. */
  function OpenSettings(app: App, promptField: string): (r: SettingsForm)
    ensures r.model != ""
    ensures var c := Storage.GetConfig(app.config);
            && (Storage.ApiKey in c ==> r.apiKey == c[Storage.ApiKey])
            && (Storage.ApiKey !in c ==> r.apiKey == "")
            && (Storage.Model in c && c[Storage.Model] != "" ==> r.model == c[Storage.Model])
            && (Storage.Model !in c || c[Storage.Model] == "" ==> r.model == OpenAI.DefaultModel)
            && (Storage.Prompt in c && c[Storage.Prompt] != "" ==> r.prompt == c[Storage.Prompt])
            && (Storage.Prompt !in c || c[Storage.Prompt] == "" ==> r.prompt == promptField)
  {
    var c := Storage.GetConfig(app.config);
    var model := ConfigValue(c, Storage.Model).GetOr("");
    var prompt := ConfigValue(c, Storage.Prompt).GetOr("");
    SettingsForm(ConfigValue(c, Storage.ApiKey).GetOr(""),
                 if model == "" then OpenAI.DefaultModel else model,
                 if prompt == "" then promptField else prompt)
  }

  /** Submitting the dialog saves all three fields, trimmed, and keeps every
      other field of the stored record. */
  function SubmitSettings(app: App, form: SettingsForm): (r: App)
    ensures r.ui == app.ui && r.saved == app.saved
    ensures var c := Storage.GetConfig(r.config);
            && Storage.ApiKey in c && c[Storage.ApiKey] == Trim(form.apiKey)
            && Storage.Model in c && c[Storage.Model] == Trim(form.model)
            && Storage.Prompt in c && c[Storage.Prompt] == Trim(form.prompt)
    ensures forall k :: k != Storage.ApiKey && k != Storage.Model && k != Storage.Prompt ==>
              (k in Storage.GetConfig(r.config) <==> k in Storage.GetConfig(app.config))
    ensures forall k :: k != Storage.ApiKey && k != Storage.Model && k != Storage.Prompt && k in Storage.GetConfig(r.config) ==>
              Storage.GetConfig(r.config)[k] == Storage.GetConfig(app.config)[k]
  {
    app.(config := Storage.SaveConfig(app.config, Some(Trim(form.apiKey)), Some(Trim(form.model)), Some(Trim(form.prompt))))
  }

  /** Reopening the dialog after submitting it shows the trimmed values, with
      the usual fallbacks for an empty model or prompt. */
  lemma SettingsRoundTrip(app: App, form: SettingsForm, promptField: string)
    ensures OpenSettings(SubmitSettings(app, form), promptField)
            == SettingsForm(Trim(form.apiKey),
                            if Trim(form.model) == "" then OpenAI.DefaultModel else Trim(form.model),
                            if Trim(form.prompt) == "" then promptField else Trim(form.prompt))
  {
  }

  /** The reset-key button: the key is removed and every other setting, the
      model and the prompt included, is kept. A throwing `clearApiKey` leaves
      everything as it was. */
  function ResetKey(app: App): (r: App)
    ensures r.ui == app.ui && r.saved == app.saved
    ensures app.config.Corrupt? ==> r == app
    ensures !app.config.Corrupt? ==> Storage.ApiKey !in Storage.GetConfig(r.config)
    ensures !app.config.Corrupt? ==> forall k :: k != Storage.ApiKey ==>
              (k in Storage.GetConfig(r.config) <==> k in Storage.GetConfig(app.config))
    ensures !app.config.Corrupt? ==> forall k :: k != Storage.ApiKey && k in Storage.GetConfig(r.config) ==>
              Storage.GetConfig(r.config)[k] == Storage.GetConfig(app.config)[k]
  {
    match Storage.ClearApiKey(app.config)
    case Failure(_) => app
    case Success(c) => app.(config := c)
  }

  /** After a reset there is no usable key, so a transcription attempt changes nothing. */
  lemma ResetKeyStopsTranscription(app: App, dataUrl: string, res: OpenAI.Response, saveOk: bool)
    ensures UsableApiKey(ResetKey(app).config).None?
    ensures TranscribeCurrentPage(ResetKey(app), dataUrl, res, saveOk) == ResetKey(app)
  {
  }

  // ---------------------------------------------------------------------------
  // The index invariant

  /** Every step except ingestion with a failed save keeps the index in bounds. */
  lemma StepsKeepIndexInBounds(app: App, i: int, v: View, text: string, dataUrl: string,
                               res: OpenAI.Response, saveOk: bool, form: SettingsForm)
    requires IndexInBounds(app.ui)
    ensures IndexInBounds(ShowPage(app, i).app.ui)
    ensures IndexInBounds(Prev(app).app.ui) && IndexInBounds(Next(app).app.ui)
    ensures IndexInBounds(SetView(app, v).ui)
    ensures IndexInBounds(TranscribeCurrentPage(app, dataUrl, res, saveOk).ui)
    ensures IndexInBounds(EditTranscript(app, text, saveOk).ui)
    ensures IndexInBounds(SubmitSettings(app, form).ui) && IndexInBounds(ResetKey(app).ui)
  {
    match BeginTranscription(app, dataUrl)
    case NotBegun =>
    case Begun(a, j, _) =>
      assert |FinishTranscription(a, j, res, saveOk).ui.project.value.pages| == |app.ui.project.value.pages|;
  }

  /** Only ingestion moves the export button: every other step leaves it as it was. */
  lemma StepsKeepExportEnabled(app: App, i: int, v: View, text: string, dataUrl: string,
                               res: OpenAI.Response, saveOk: bool, form: SettingsForm)
    ensures ShowPage(app, i).app.ui.exportEnabled == app.ui.exportEnabled
    ensures Prev(app).app.ui.exportEnabled == app.ui.exportEnabled
    ensures Next(app).app.ui.exportEnabled == app.ui.exportEnabled
    ensures SetView(app, v).ui.exportEnabled == app.ui.exportEnabled
    ensures TranscribeCurrentPage(app, dataUrl, res, saveOk).ui.exportEnabled == app.ui.exportEnabled
    ensures EditTranscript(app, text, saveOk).ui.exportEnabled == app.ui.exportEnabled
    ensures SubmitSettings(app, form).ui.exportEnabled == app.ui.exportEnabled
    ensures ResetKey(app).ui.exportEnabled == app.ui.exportEnabled
  {
  }
}
