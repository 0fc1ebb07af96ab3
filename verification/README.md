# transcribe-my-journal, modelled in Dafny

transcribe-my-journal is a browser app. The user drops a PDF or an image of
handwritten journal pages. The app rasterises it into pages and sends the
current page to an OpenAI vision model for transcription. It keeps the
project, its pages and their transcripts in a local database. It exports
the current project as plain text and all saved projects as one text file;
exporter.js also defines Word and Google Docs exports, which main.js does
not call. Settings
(API key, model, prompt) live in local storage.

This project models the app's core as pure functions:

- `Session` (session.dfy): the page-session controller of `main.js`. It is
  a state machine over `App`, which holds:
  - the UI state (`project`, `currentPageIndex`, `currentView`) and
    whether the export button is enabled;
  - the saved project records, in insertion order;
  - the stored settings.

  Each event handler is one atomic step. Ingestion, navigation,
  auto-transcription, the page status cycle `Pending → Working →
  Done/Pending`, transcript editing, the export button and the settings
  dialog are all steps. Whatever the browser, the rasteriser, the
  transcription service or the database answers during a step is a
  parameter of that step.
- `Pages` (pages.dfy): the in-memory project and the storable record it is
  reduced to before every save.
- `ExportAll` (export_all.dfy): the "export all" text, built by the same
  two nested appending loops as the source. It is proved equal to a
  reference definition and characterised by which pages it keeps.
- `Exporter` (exporter.dfy): the plain-text export and, for the two
  exports main.js does not call, the content inserted into a Google
  document and the Word paragraphs, including the Word
  export's failure on an undefined transcript.
- `Storage` (storage.dfy): `getConfig`, `saveConfig` and `clearApiKey`
  over a stored value that is absent, unparsable or a record.
- `OpenAI` (openai.dfy): the request `transcribeImage` sends and how its
  reply is decoded.
- `Text` (text.dfy): the string operations the app uses:
  - JavaScript `trim`, with the ECMAScript whitespace set;
  - decimal page numbers;
  - `join`;
  - `split(',')`;
  - `split(/\n+/)`.
- `Wrappers` (wrappers.dfy): `Option` and `Result`.

Facts about the code that shape the model:

- `saveConfig` writes all three fields every time; an omitted one is
  removed (storage.js:18, `Storage.SaveOmittedFieldDropped`).
- A project record is never given an id (main.js:134-138), so every save
  appends a new record.
- A failed transcription puts the page back to `pending` (main.js:208);
  `pending`, `working` and `done` are the only statuses main.js uses.

## Model

| member | source | states |
|---|---|---|
| Text.Trim | openai.js:41 | the trimmed text is empty exactly when the input is all whitespace; otherwise it starts and ends with non-whitespace |
| Text.TrimIsInfix | main.js:255 | the trimmed text is a contiguous piece of the input, with only whitespace before and after it |
| Text.ParseNatToString | main.js:254 | reading a page-number numeral back gives the number, so numerals are unambiguous |
| Text.NatToStringInjective | main.js:60 | different page numbers render as different numerals |
| Text.JoinSplitOn | openai.js:6 | splitting on a character and joining back with it gives the original text |
| Text.SplitOnFirst | openai.js:6 | the text before the first separator is the first piece; the rest is split on |
| Text.JoinSplitNewlineRuns | exporter.js:25 | the `/\n+/` pieces joined by one newline are the text with every newline run collapsed, so only repeated newlines are lost |
| Text.SplitNewlineRuns | exporter.js:25 | no piece contains a newline; inner pieces are non-empty; there is at least one piece |
| Storage.GetConfig | storage.js:6-14 | the stored record when one parses; the empty record when nothing is stored or the text does not parse |
| Storage.SaveConfig | storage.js:16-20 | each of the three fields is present exactly when supplied, with the supplied value; every other field of the current record is kept |
| Storage.ClearApiKey | storage.js:22-26 | fails exactly on unparsable text; otherwise the key is gone and every other field is kept |
| Storage.SaveThenGet | storage.js:16-20 | a save followed by `getConfig` reads each of the three fields back exactly as saved, missing when omitted |
| Storage.SaveOmittedFieldDropped | storage.js:18 | saving without an API key removes a stored key: fields are overwritten, not merged |
| Storage.ClearApiKeyIdempotent | storage.js:22-26 | clearing the key twice equals clearing it once |
| Storage.ClearKeepsSettings | storage.js:22-26 | clearing the key keeps the model and prompt exactly as `getConfig` saw them |
| Storage.CorruptReadersDisagree | storage.js:23 | on unparsable text `getConfig` yields the empty record while `clearApiKey` fails |
| OpenAI.ImagePayload | openai.js:6 | there is no payload exactly when the data URL has no comma; a payload never contains a comma |
| OpenAI.PayloadOfDataUrl | openai.js:6 | for a data URL with one comma after its header, the payload is exactly the data after the comma |
| OpenAI.SystemPrompt | openai.js:12 | the supplied prompt when it is non-empty, else the default transcription instruction; never empty |
| OpenAI.BuildRequest | openai.js:4-36 | model defaults only when undefined; system prompt falls back; the image is declared PNG; the payload comes from the data URL; the authorisation is `Bearer ` followed by the key |
| OpenAI.ReplyText | openai.js:41 | the extracted text is already trimmed |
| OpenAI.DecodeResponse | openai.js:37-41 | fails with the status and status text exactly when the response is not OK; fails exactly when an OK body does not parse; a transcript is always trimmed |
| OpenAI.DecodeFirstChoice | openai.js:41 | a complete reply yields the first choice's content, trimmed, whatever follows it |
| OpenAI.DecodeBrokenChain | openai.js:41 | a missing choices list, an empty list, or a missing message or content yields the empty transcript, not an error |
| Exporter.TxtText | exporter.js:5-7 | the text is empty exactly when there are no pages; a single page exports as its block alone; every export starts with the first page's block |
| Exporter.TxtAppend | exporter.js:5-7 | appending a page appends one newline and that page's block, numbered one past the earlier pages |
| Exporter.TxtPrefix | exporter.js:5-7 | the export of the first k pages is a prefix of the export of all pages |
| Exporter.TxtMissingIsEmpty | exporter.js:6 | a page with an undefined transcript exports exactly like one with an empty transcript |
| Exporter.GoogleDocContent | exporter.js:77-79 | the inserted content is empty exactly when there are no pages and starts with the first page's block and an extra newline |
| Exporter.GoogleDocIsDoubleSpacedTxt | exporter.js:77-79 | the Google Docs content is the plain-text blocks separated by a blank line, with one trailing newline |
| Exporter.DocxSection | exporter.js:20-28 | a heading paragraph for the page, then at least one body paragraph; no body paragraph is a heading or contains a newline |
| Exporter.DocxSectionKeepsText | exporter.js:24-26 | the body paragraphs joined by newlines are the transcript with newline runs collapsed: no text is lost or reordered |
| Exporter.DocxSectionsFrom | exporter.js:19-29 | succeeds exactly when no remaining transcript is undefined, with one section per page in order; otherwise fails at the first undefined one |
| Exporter.DocxSections | exporter.js:12-29 | fails when the library is missing; otherwise succeeds exactly when every transcript is defined, with one section per page, in order |
| Exporter.MissingTranscriptOnlyBreaksDocx | exporter.js:24 | an undefined transcript makes the Word export fail while the plain-text export treats it as empty |
| Exporter.DocxHeadingsMatchTxt | exporter.js:23 | each plain-text block starts with the heading of the matching Word section and a blank line |
| Pages.NewPage | main.js:123 | a fresh page holds the image, has an empty transcript and is pending |
| Pages.ToStorable | main.js:141-148 | same title and creation time; each page, in order, reduced to its image source, transcript and status |
| Pages.WithPage | main.js:184-185 | the chosen page is replaced; the title, time and every other page are unchanged |
| Pages.WithPageTwice | main.js:178-185 | replacing the same page twice keeps only the second replacement |
| Pages.StorableWithPage | main.js:189-196 | the record saved after a one-page change is the previous record with only that page's entry replaced |
| Pages.StorableKeepsText | main.js:141-148 | projects with equal records have equal titles, times, page counts, transcripts and statuses |
| Session.ShowPage | main.js:65-89 | no change without a project or for an index outside the pages; otherwise selects the page and starts a transcription exactly when the page has no transcript and is pending |
| Session.Prev | main.js:297-301 | no change on the first page, without a project, or when the previous index addresses no page; otherwise moves back one page and starts a transcription exactly when that page has no transcript and is pending |
| Session.Next | main.js:303-307 | no change on the last page; otherwise moves forward one page and starts a transcription exactly when that page has no transcript and is pending |
| Session.Navigation | main.js:53-63 | hidden exactly when there are fewer than two pages; previous is disabled exactly on the first page and next exactly on the last |
| Session.NavigationMatchesButtons | main.js:61-62 | a button is disabled exactly when clicking it changes nothing, and an enabled button moves the index by exactly one |
| Session.SetView | main.js:310-318 | only the view changes: the project, index, export button, records and settings stay |
| Session.LoadPages | main.js:121-132 | unsupported exactly when the file is neither PDF nor image; a PDF gives one fresh page per rasterised page, in order; an image gives one fresh page; load failure is reported as such |
| Session.HandleFiles | main.js:112-159 | the export button is disabled first; no files, an unsupported file or a load failure change nothing else; otherwise the project is replaced by one titled with the file name and recorded when the save succeeds, and export is enabled again exactly then; a failed save shows no page and keeps the old index |
| Session.IngestShowsFirstPage | main.js:149-152 | a saved, non-empty upload shows page one and starts transcribing it |
| Session.IngestKeepsIndexInBounds | main.js:134-152 | with a successful save, ingestion leaves the index addressing a page |
| Session.IngestFailedSaveLeavesStaleIndex | main.js:149-158 | when the save fails, the index left by the previous project can point past the new project's pages |
| Session.BeginTranscription | main.js:170-183 | starts exactly when a non-empty key is stored and there is a current page; the page turns working and the request is built from the stored model and prompt |
| Session.TranscribeCurrentPage | main.js:170-210 | keeps the settings, the index, the export button, the title and time and every page but the current one; without a project nothing changes; a save only appends the updated record (the per-case outcomes are the lemmas below) |
| Session.TranscribeWithoutKey | main.js:171-175 | without a usable key nothing changes |
| Session.TranscribeSuccess | main.js:183-202 | a saved reply gives the current page exactly the trimmed reply text and status done; it switches to the transcript view and saves the updated record |
| Session.TranscribeFailure | main.js:204-209 | a failed request puts the page back to pending with its transcript untouched, and saves nothing |
| Session.TranscribeSaveFailure | main.js:184-208 | a failed save keeps the new transcript but puts the page back to pending; nothing is recorded |
| Session.TranscribeEndsSettled | main.js:178-208 | working is transient: after a transcription step no page is working |
| Session.EditTranscript | main.js:327-342 | without a current page nothing changes; otherwise only the current page's transcript changes, and the result is saved when the save succeeds |
| Session.EditSavesOnePageChange | main.js:333-341 | the saved record is the record before the edit with only the current page's transcript replaced |
| Session.ExportCurrent | main.js:321-324 | nothing without a project or while the button is disabled; otherwise exactly the plain-text export of the project's pages, empty exactly when there are no pages, one block per page with its transcript |
| Session.ExportAfterEdit | main.js:321-342 | exporting after an edit gives the earlier export's blocks with only the edited page's block replaced, under the same heading |
| Session.ExportAllAfterSavedEdit | main.js:240-259 | after a saved edit, exporting all records gives the earlier text plus one section for the edited project, in which the edited page appears with its trimmed new text exactly when that text is not blank |
| Session.IngestGatesExport | main.js:113-153 | after a file is decoded, the new project can be exported exactly when its save succeeded |
| OpenAI.RequestOfDataUrl | openai.js:4-20 | for a canvas data URL and no stored model, the request names `gpt-4o-mini` and carries exactly the data after the comma |
| Session.OpenSettings | main.js:213-219 | fields show the stored values; a missing or empty key shows empty, a missing or empty model shows `gpt-4o-mini`, a missing or empty prompt keeps the field as it was |
| Session.SubmitSettings | main.js:221-229 | the three fields are stored trimmed; every other stored field is kept |
| Session.SettingsRoundTrip | main.js:213-229 | reopening the dialog after submitting it shows the trimmed values, with the model and prompt fallbacks |
| Session.ResetKey | main.js:231-235 | the stored key is gone and every other setting, the model and prompt included, is kept; unparsable settings leave everything as it was |
| Session.ResetKeyStopsTranscription | main.js:231-235 | after a reset there is no usable key, so a transcription attempt changes nothing |
| Session.StepsKeepExportEnabled | main.js:113-153 | only ingestion moves the export button; every other step leaves it as it was |
| Session.StepsKeepIndexInBounds | main.js:65-342 | every step other than ingestion keeps the current index addressing a page whenever there is one |
| ExportAll.ProjectTitle | main.js:249 | the record's title when non-empty, else `Project ` followed by the one-based record number; never empty |
| ExportAll.AppendPageEntry | main.js:253-256 | a page with non-whitespace text adds its number line, trimmed text and a blank line; any other page adds nothing |
| ExportAll.AppendPageEntries | main.js:252-257 | the inner loop appends exactly the reference page text of the project |
| ExportAll.ExportAllText | main.js:240-264 | nothing to export exactly when there are no records; otherwise the text is the sections in record order and is never blank, so the second emptiness check never fires |
| ExportAll.KeptPagesSound | main.js:253-255 | every exported page has non-whitespace text and appears under its own one-based number with its trimmed text |
| ExportAll.KeptPagesOrdered | main.js:252 | exported pages appear in page order, each at most once |
| ExportAll.KeptPagesComplete | main.js:253 | every page with non-whitespace text is exported |
| ExportAll.KeptPageIff | main.js:252-255 | a page is exported, under its one-based number with its trimmed text, exactly when it has non-whitespace text |
| ExportAll.AllTextAppend | main.js:247-259 | one more record adds one more section at the end, numbered after the earlier records |
| ExportAll.PagesTextIsKeptText | main.js:252-257 | a project's page text is exactly its exported pages, each under its original number line |
| ExportAll.SectionStartsWithTitle | main.js:249 | every project section starts with its title line |

## Left out

- Rendering is left out: the DOM, canvas drawing, CSS classes, the status overlay and `alert`. They change no modelled state.
- Downloads (`Blob`, object URLs, `triggerDownload`) are left out. Only the text or paragraphs handed to them are modelled.
- The download file name of the export-all file, with its ISO date (main.js:270, 274), is left out because it depends on the clock.
- The Google Docs OAuth flow and the Docs API calls (exporter.js:34-93) are left out as network I/O. Only the inserted content string is modelled.
- The Word document's binary packing (`Packer.toBlob`) is left out as a foreign library. Only the paragraph list is modelled.
- db.js is not part of this model. The saved records are an append-only sequence, and the outcome of a save is a boolean parameter.
- pdf_renderer.js and image decoding are not part of this model. Their results are the `Loaders` parameter.
- `Date.now` and `toLocaleDateString` are parameters, the creation time and a date-formatting function, because they depend on the clock and the locale.
- Asynchronous interleavings are left out: each handler is one atomic step. Interleavings such as an edit arriving while a transcription is in flight are not modelled.
- JSON value kinds are not modelled. Settings fields are strings, and a stored JSON value that parses but is not an object is not distinguished from a record.
- A `setItem` failure (quota exceeded) is not modelled.
- The initial state of the export button comes from the page markup, which is not part of this model; the model takes it as part of the given state.
- Text.Trim: works on Unicode scalar values rather than UTF-16 code units, so lone surrogates cannot be expressed.
- Session.Next: the source throws on a click with no project loaded. The model treats this as a step that changes nothing, which is what a throwing handler leaves behind.
- Session.EditTranscript: the source throws when the index addresses no page (main.js:329-330). The model treats this as a step that changes nothing.
- Session.BeginTranscription: the source throws when there is no project or the index addresses no page. The model treats this as a step that changes nothing.
- ExportAll.ExportAllText: the second emptiness check (main.js:261-264) is not a branch of the model. The contract shows the exported text is never blank, so that check cannot fire.
