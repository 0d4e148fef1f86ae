# JobStreamlit rules in Dafny

JobStreamlit is a Streamlit application for tracking job applications. It keeps a tracker workbook on OneDrive and builds a tailored CV or cover letter for each application from Word templates and JSON placeholder files. This project models the deterministic rules under the Streamlit and Microsoft Graph glue, and proves properties of them.

What each part models:

- **Credential gate** of the start page (`app.py`): reading `cred.json`, rewriting a "Z" before parsing the timestamp, the 80-day staleness threshold, and the one sign-in or ready outcome a run ends with.
- **Bold-markdown splitter** of bullet points (`parse_bullet_to_richtext`). The regular expression `(\*\*.*?\*\*)` and `re.split` are modelled directly.
- **Folder paths** of an application, and the split of a folder path into parent and name.
- **Status-code rules** of every OneDrive helper: create-if-404 folders, skip-if-present copies, 200-only loads, 200/201 uploads, PDF export.
- **Workbook row shaping**: the seven-column appended row, the 201-only session that is closed without looking at the reply, read and overwrite.
- **Tracker page**: validating a new entry and building its row, merging the editable columns back, and loading the table.
- **Bullet bank**: the de-duplicating append, browsing by category, and picking a bullet.
- **Schema-driven form**: which fields render, in which pass and column, and what date and select fields yield.
- **Applications page**: choosing the file set, the copy loop, writing the form's values back, the render mapping, the "Create Final" pipeline, and the notification.
- **Page resolution** from the query parameters, and the navigation radio's session bookkeeping.

How the outside world appears in the model:

- Every HTTP request is an abstract `Drive.Reply`: a status code, or a transport failure.
- Operations return the requests they sent together with their result, so that "nothing was uploaded" is a statement about that list.
- The clock, the uuid, the login outcome and the ISO-8601 parser are parameters.
- Time is an integer count of seconds.
- Widget state is an explicit record.

Modules, one file each:

| module | file | role |
|---|---|---|
| `Wrappers` | `wrappers.dfy` | `Option` and `Result` |
| `Text` | `text.dfy` | strip, split, join, replace |
| `Dates` | `dates.dfy` | the `strftime` and `strptime` formats in use |
| `Credential` | `credential.dfy` | start-page credential gate |
| `BoldMarkdown` | `bold_markdown.dfy` | bullet splitter |
| `Folders` | `folders.dfy` | application folder paths |
| `Drive` | `drive.dfy` | OneDrive status-code rules |
| `Workbook` | `workbook.dfy` | tracker workbook |
| `Tracker` | `tracker.dfy` | tracker page |
| `BulletBank` | `bullet_bank.dfy` | bullet bank |
| `DynamicForm` | `form.dfy` | schema-driven form |
| `Applications` | `applications.dfy` | applications page |
| `Navigation` | `navigation.dfy` | page resolution and navigation radio |

## Model

| member | source | states |
|---|---|---|
| Credential.ReadCred | app.py:15-23 | A missing, unreadable or non-object file gives (None, None). Otherwise the result is the two entries, each None when absent. |
| Credential.UtcSuffixRewrite | app.py:30 | The text given to the parser contains no "Z"; text without "Z" is passed unchanged. |
| Credential.ZuluBecomesOffset | app.py:29-30 | A "Z" between texts without "Z", as in "…T00:00:00Z", becomes "+00:00" and nothing else changes. |
| Credential.ParseIso | app.py:25-32 | A timestamp comes only from a non-empty string, and a string is parsed after the "Z" rewrite. |
| Credential.ParserSeesNoZ | app.py:30 | Two parsers that agree on texts without "Z" give the same timestamp for every entry. |
| Credential.NaiveStampCrashes | app.py:59-64 | As written, a cached credential with a timestamp lacking a UTC offset reaches no outcome: comparing it with the aware clock raises. |
| Credential.Precheck | app.py:53-69 | Corrected prechecks. A falsy cache means sign-in for missing credentials. The checks pass exactly when the cache is truthy, the timestamp parses with an offset, and now is before generated + 80 days. |
| Credential.PrecheckAgrees | app.py:53-69 | Wherever the as-written checks reach an outcome, the corrected ones reach the same outcome. |
| Credential.Gate | app.py:37-80 | Corrected gate, built on the corrected prechecks, for timestamps at least 80 days before the end of `datetime`'s range. The first failing check decides the sign-in reason. "Ready" holds exactly when the checks pass, the silent call succeeds and the session holds a token. When the checks pass but the silent call or the token is missing, the reason is the failed silent acquisition. "Ready" carries the parsed timestamp and a valid-until of that + 80 days, after now. |
| Credential.GateAgrees | app.py:37-80 | Every outcome the page as written reaches, the corrected gate reaches too. Within `datetime`'s range, the page as written reaches none exactly for a cached credential with a naive timestamp. |
| Credential.MissingCacheForcesSignIn | app.py:53-56 | No file, an unreadable or non-object file, or a falsy cache always leads to sign-in for missing credentials, whatever the other inputs within `datetime`'s range. |
| Credential.BadTimestampForcesSignIn | app.py:58-61 | With a cache, a missing, empty, non-string or unparsable timestamp leads to sign-in for an invalid timestamp. |
| Credential.StaleExactlyAtThreshold | app.py:63-69 | The credential is stale iff now >= generated + 80·86400 s, so the boundary instant is stale. |
| Credential.SilentOnlyWhenFresh | app.py:71-80 | When a precheck fails, the silent-login outcome and the session token cannot change the result. |
| BoldMarkdown.CloseFrom | utils/doc_helpers.py:93 | The lazy body closes at the first "**". No newline and no earlier "**" lie between its start and that close. There is no close exactly when a newline comes before every later "**". |
| BoldMarkdown.MatchAt | utils/doc_helpers.py:93 | A match is at least four characters long and lies inside the text. |
| BoldMarkdown.DelimitedSlice | utils/doc_helpers.py:93 | A stretch of text is a match of the pattern iff "**" sits at both ends and the text between has no newline and no "**". |
| BoldMarkdown.MatchAtShortest | utils/doc_helpers.py:93 | The match at a position is the shortest delimited stretch starting there. There is no match exactly when no stretch starting there is delimited. |
| BoldMarkdown.Pieces | utils/doc_helpers.py:93 | The split from a resume point yields an odd number of pieces, and every odd-indexed piece is a delimited match. |
| BoldMarkdown.PiecesSplit | utils/doc_helpers.py:93 | When no match starts in the skipped prefix, the pieces follow the `re.split` rule from the resume point. |
| BoldMarkdown.Split | utils/doc_helpers.py:93 | An odd number of pieces, with a delimited match at every odd position. |
| BoldMarkdown.SplitIsReSplit | utils/doc_helpers.py:93 | The pieces follow the `re.split` rule. First comes text in which no match starts, then the leftmost match, then the rest split the same way. The last piece is text in which no match starts. |
| BoldMarkdown.SplitsFromUnique | utils/doc_helpers.py:93 | The `re.split` rule allows only one result: two splits of the same text are equal. |
| BoldMarkdown.SplitConcat | utils/doc_helpers.py:93 | The pieces, concatenated in order, give back the text. |
| BoldMarkdown.SplitNoStars | utils/doc_helpers.py:93 | Text without "**" is a single piece, itself. |
| BoldMarkdown.Classify | utils/doc_helpers.py:95-98 | A piece is bold iff it starts and ends with "**". A bold run's text drops the first two and last two characters; a plain run keeps the piece. |
| BoldMarkdown.ClassifyAll | utils/doc_helpers.py:94-98 | One run per piece, in order. |
| BoldMarkdown.ParseBullet | utils/doc_helpers.py:91-99 | One run per piece, each the classification of its piece. A piece that starts and ends with "**" becomes a bold run of `part[2:-2]`; any other piece is a plain run of itself. Matched pieces are bold, with neither newline nor "**" inside. |
| BoldMarkdown.RenderParseBullet | utils/doc_helpers.py:91-99 | When no unmatched piece has length 2 or 3, wrapping the bold runs in "**" again gives back the text. |
| BoldMarkdown.PlainText | utils/doc_helpers.py:93-98 | Text without "**" (including "") gives one plain run equal to the text. |
| BoldMarkdown.LoneStarsBecomeEmptyBold | utils/doc_helpers.py:95-96 | "**" alone is not matched, yet becomes an empty bold run, so rendering it back does not give "**". |
| Folders.FolderPaths | utils/helpers.py:6-16 | Returns (template, target, bank) in that order. The template folder is "Jobs/templates/" + job type; the target is the application folder; the bank folder is constant. |
| Folders.TargetFolderInjective | utils/helpers.py:7-13 | The application folder determines month, day and company: jobs that differ in month, day or company get different folders. |
| Folders.YearIgnored | utils/helpers.py:7-13 | The year takes no part: the same month, day and company share a folder across years. |
| Folders.JobTypeIgnored | utils/helpers.py:7-15 | The job type chooses only the template folder: jobs differing only in type share the application and bank folders. |
| Folders.SplitFolder | utils/helpers.py:28-29 | The name contains no "/". For a path with "/", parent + "/" + name is the path; otherwise the parent is "" and the name is the path. |
| Folders.SplitFolderJoin | utils/helpers.py:28-29 | Splitting folder + "/" + name gives back folder and name, for a name without "/". |
| Dates.MonthName | utils/helpers.py:8 | `%B` month names contain no ".", "/" or "-", so they are safe as path and date components. |
| Dates.MonthAbbr | pages/tracker.py:71 | `%b` is the first three letters of the full month name. |
| Dates.Pad2 | utils/helpers.py:9 | `%d` is two decimal digits whose value is the day. |
| Dates.ParseYmd | utils/dynamic_json_ui.py:77 | A parsed `%Y-%m-%d` date is a real calendar date and comes from text of the shape YYYY-… of 8 to 10 characters. |
| Dates.ParseIsoDate | utils/dynamic_json_ui.py:77 | Every YYYY-MM-DD date with a four-digit year parses back to itself. |
| Dates.DottedIsNotYmd | utils/dynamic_json_ui.py:77-82 | No date written as `%d.%B.%Y` parses as `%Y-%m-%d`. |
| Dates.ParseDotted | utils/dynamic_json_ui.py:82 | The reader of the `%d.%B.%Y` form yields only real calendar dates. |
| Dates.ParseFormatDotted | utils/dynamic_json_ui.py:82 | Writing a date with `%d.%B.%Y` and reading it back gives the same date, for four-digit years. |
| Drive.EnsureFolder | utils/helpers.py:21-40 | 200 leaves the folder alone; 404 creates it under its parent with a name free of "/"; anything else raises. Only a 404 sends a second request. |
| Drive.CopyFile | utils/helpers.py:44-69 | 200 at the target skips. The copy completes iff the probe says 404, the download 200 and the upload 200 or 201. The probe goes to the target first; downloads read only the source and writes go only to the target file. |
| Drive.SkipLeavesTargetUnchanged | utils/helpers.py:51-53 | When the target already has the file, nothing is downloaded or written, whatever the later replies. |
| Drive.UploadOnlyAfterDownload | utils/helpers.py:57-69 | A copy writes only after a 404 probe and a 200 download. |
| Drive.LoadJson | utils/helpers.py:73-84 | A JSON load succeeds iff the status is 200 and the body decodes, and yields the decoded value. |
| Drive.UploadFile | utils/helpers.py:86-100 | A JSON or docx upload succeeds iff the status is 200 or 201. |
| Drive.LoadDocx | utils/doc_helpers.py:7-29 | A docx load succeeds iff the status is 200. |
| Drive.DocxAsPdf | utils/doc_helpers.py:56-88 | Succeeds iff the export gives 200 and the upload 200 or 201. No upload follows a failed export. |
| Workbook.FormatRowAsWritten | utils/onedrive.py:68-76 | As written: exactly seven cells in the order ID, Job Type, Date, Company Name, Url, Folder Created, Status, with "" for a missing key. |
| Workbook.FormatRow | utils/onedrive.py:68-76 | Corrected row: the same seven cells, with the folder flag read from "Created Application folder", the column the tracker writes and shows. |
| Workbook.FormatRowIgnoresOtherKeys | utils/onedrive.py:68-76 | Keys outside the seven never change the row. |
| Workbook.AppendRow | utils/onedrive.py:41-109 | Succeeds iff the session answers 201 and the append 200 or 201. A refused session sends no append, and a failed append no close. On success the table gains exactly the formatted row at its end, and the close request is sent. |
| Workbook.ReadExcel | utils/onedrive.py:24-36 | A transport failure or an unparsable 200 body raises. Any other non-200 status returns None without raising. |
| Workbook.Overwrite | utils/onedrive.py:129-132 | The overwrite succeeds iff the status is 200 or 201. |
| Workbook.OverwriteThenRead | utils/onedrive.py:24-36 | A parsed 200 body is returned unchanged: when the file parses back to the table an accepted overwrite wrote, the read returns that table. |
| Tracker.StatusNamesMatchOptions | pages/tracker.py:75 | Each status option is the name of exactly one status. |
| Tracker.CompleteOnlyNeedsText | pages/tracker.py:81 | The form check fails iff company or url is blank after stripping: the four select boxes always hold a non-empty option. |
| Tracker.NewEntry | pages/tracker.py:79-94 | Rejected iff company or url is blank after stripping. Otherwise the row holds seven keys: the ID is the uuid's first 8 characters, company and url are stored as entered, Date is today as `%d-%b-%Y`, and the status, job type and folder flag are the options chosen ("Yes"/"No" for the flag, under "Created Application folder"). |
| Tracker.EntryRowCellsAsWritten | pages/tracker.py:86-100 | As written, a tracker row dict appends as its seven cells in column order, with the folder column "": the flag sits under a key the workbook never reads. |
| Tracker.EntryRowCells | pages/tracker.py:86-100 | With the corrected column keys, a tracker row dict appends as exactly its seven cells in column order, the folder flag included. |
| Tracker.EntryFolderColumnBlank | pages/tracker.py:86-100 | As written, the appended cells of a new entry are ID, type, date, company, url, "", status: the folder flag is lost. |
| Tracker.EntryFolderColumnKept | pages/tracker.py:86-100 | Corrected: the appended cells of a new entry are ID, type, date, company, url, "Yes"/"No" as chosen, status. |
| Tracker.SubmitEntry | pages/tracker.py:79-106 | A rejected form sends nothing. An accepted form is added iff the session answers 201 and the append 200 or 201, and sends the workbook's append requests. It then appends exactly its row; otherwise the table is unchanged. |
| Tracker.SubmitAppendsLast | pages/tracker.py:79-106 | A complete form with an opened session and an accepted append is added, and its seven cells, the folder flag included, end the remote table. |
| Tracker.Display | pages/tracker.py:25 | The editor shows every row, in order, without the ID column. |
| Tracker.ApplyEdits | pages/tracker.py:49-50 | Only Company Name, Url and Status are copied from the editor. ID, type, date and folder flag stay as they were, and the row count is unchanged. |
| Tracker.ApplyOwnDisplay | pages/tracker.py:49-50 | Saving an untouched editor writes the table back unchanged. |
| Tracker.ApplyEditsIdempotent | pages/tracker.py:49-50 | Saving the same edits twice equals saving them once. |
| Tracker.SaveUpdates | pages/tracker.py:47-60 | The save succeeds iff the overwrite answers 200 or 201, and then the remote table is the merged one. |
| Tracker.Load | pages/tracker.py:18-25 | Without a token the page shows the login warning. The table shows iff the read gives 200 with a parsed table. A non-200 read (None) ends in the load error. |
| Tracker.SaveThenLoad | pages/tracker.py:18-60 | After a successful save, reloading shows the edited company, url and status in every row, with the other columns from the remote table. After a failed save, it shows the table as it was. |
| Tracker.SaveUntouched | pages/tracker.py:47-60 | Saving an untouched editor leaves the remote table as it was, whatever the upload answers. |
| BulletBank.Save | utils/dynamic_json_ui.py:108-139 | No valid category or a blank stripped text is rejected, with no change and no upload. A bullet already present changes nothing. Otherwise the stripped text is appended at the end of its list (created if absent) and exactly one upload follows. |
| BulletBank.SaveOtherCategories | utils/dynamic_json_ui.py:122-124 | Other categories keep their lists. |
| BulletBank.SaveIdempotent | utils/dynamic_json_ui.py:123-137 | Saving the same bullet twice equals saving it once; the second save uploads nothing. |
| BulletBank.Browse | utils/dynamic_json_ui.py:85-98 | Browsing is disabled iff no valid category is chosen; otherwise it lists the category's bullets, [] when absent. |
| BulletBank.BrowseAfterSave | utils/dynamic_json_ui.py:118-124 | After an append, browsing the category lists the old bullets followed by the new one. |
| BulletBank.SavePreservesStripped | utils/dynamic_json_ui.py:119-124 | Saving keeps every bullet of the bank non-empty and stripped. |
| BulletBank.Pick | utils/dynamic_json_ui.py:103-105 | The "use" button of a listed bullet puts exactly that bullet into the text area. |
| BulletBank.PickThenSaveChangesNothing | utils/dynamic_json_ui.py:98-124 | Picking a listed bullet of a stripped bank and saving it again changes nothing and uploads nothing. |
| DynamicForm.Select | utils/dynamic_json_ui.py:11-29 | A pass renders exactly the schema fields of its types. |
| DynamicForm.SelectInitial | utils/dynamic_json_ui.py:67-73 | The select box always starts at index 0, because an object value is never one of its own string options. |
| DynamicForm.DateDefaultAsWritten | utils/dynamic_json_ui.py:76-79 | As written, a date field starts from its value parsed as `%Y-%m-%d`, or today when that fails. |
| DynamicForm.SavedDateResetsAsWritten | utils/dynamic_json_ui.py:76-82 | As written, a date the field saved reloads as today, whatever date was saved. |
| DynamicForm.DateDefault | utils/dynamic_json_ui.py:76-79 | Corrected default: the `%Y-%m-%d` parse when it succeeds, otherwise the field's own `%d.%B.%Y` form, otherwise today. It is always a real date. |
| DynamicForm.SavedDateKept | utils/dynamic_json_ui.py:76-82 | With the corrected default, a saved date reloads as itself, for four-digit years. |
| DynamicForm.WidgetValue | utils/dynamic_json_ui.py:63-82 | Corrected date default. A text field yields the typed text, or its value's text when nothing was typed. A select yields null iff it has no options. Otherwise it yields the chosen option when the choice is in range, else the first. A date field yields `%d.%B.%Y` of the picked date, or else of its default. |
| DynamicForm.FirstPass | utils/dynamic_json_ui.py:8-19 | One widget per field, in order, alternating left and right from the given column. |
| DynamicForm.SecondPass | utils/dynamic_json_ui.py:24-58 | Each textarea and bullets field gets a box, in order, yielding the text area's text. |
| DynamicForm.Render | utils/dynamic_json_ui.py:5-60 | Fails iff a field has no type. Otherwise it yields as many widgets as the two passes select. |
| DynamicForm.RenderSources | utils/dynamic_json_ui.py:5-60 | The result lists the first pass's keys, then the second pass's. |
| DynamicForm.RenderedKeysSound | utils/dynamic_json_ui.py:16-55 | Every result key belongs to a field of type text, select, date, textarea or bullets. |
| DynamicForm.RenderedKeysComplete | utils/dynamic_json_ui.py:16-55 | Every field of those five types has its key in the result. |
| DynamicForm.Columns | utils/dynamic_json_ui.py:8-19 | Text, select and date widgets alternate left, right, … from the left; the rest are boxed. |
| DynamicForm.DateFieldsDotted | utils/dynamic_json_ui.py:75-82 | Corrected date default. A rendered date field yields `%d.%B.%Y` of the picked date, or else of its default. |
| Applications.FileSet | pages/applications.py:87-98 | "CV" selects the CV files; any other choice selects the cover-letter files. |
| Applications.FileSetsPlain | pages/applications.py:87-98 | No file name of either set contains "/". |
| Applications.OutputsDistinct | pages/applications.py:91-98 | The two documents never write each other's output files. |
| Applications.FileSetPaths | pages/applications.py:101-152 | Every document path splits back into the folder it was built from and the file name. |
| Applications.CoverLetterTemplateNotCopied | pages/applications.py:30-35 | As written, the cover-letter template the page reads is not in the list of copied files. |
| Applications.TemplatesCopied | pages/applications.py:87-98 | With the corrected list, every template a document reads from the application folder is copied there. |
| Applications.CopyAll | pages/applications.py:63-69 | The copies succeed iff every file's copy succeeds, with their actions in list order and every copy's requests in order. A failure carries the error of the first failing copy and holds only the requests of the copies up to it. The only writes are uploads of listed files into the target. |
| Applications.CopyTemplates | pages/applications.py:63-69 | The loop produces the same actions, failure and requests as the copy specification. |
| Applications.MergeValues | pages/applications.py:115-117 | Keys, order and types are kept. A field whose key is in the result gets that value; other fields are unchanged. |
| Applications.MergeIdempotent | pages/applications.py:115-117 | Writing the same values back twice equals writing them once. |
| Applications.MergedDefaults | pages/applications.py:115-117 | After the merge, a merged field starts from the value written. |
| Applications.SavedSelectLosesOptions | utils/dynamic_json_ui.py:67-73 | Once a select's chosen option is written back as its value, the field offers no options and renders as null. |
| Applications.ResultMap | pages/applications.py:109 | The form result as a dict has exactly the widgets' keys. |
| Applications.ResultMapLast | pages/applications.py:109 | Each key maps to the value of its last widget, later assignments overriding earlier ones. |
| Applications.Fill | pages/applications.py:134-138 | A "Bullet…" key gets the rich-text parse of its text, and a non-text value there raises. Other keys get their raw value. |
| Applications.FillMapping | pages/applications.py:132-138 | The mapping has exactly the placeholder keys, in order, each filled as above ("" for a field without value). It fails iff some bullet value is not text. |
| Applications.PlainBulletFillsPlain | pages/applications.py:132-138 | A saved bullet without "**" fills its placeholder with one plain run of that text. |
| Applications.Create | pages/applications.py:112-164 | Succeeds iff the JSON upload, the template load, the fill, the docx upload, the export and the PDF upload all succeed. The first request uploads the merged JSON, and every write is one of the three target-folder outputs. |
| Applications.CreateSavesValues | pages/applications.py:112-122 | After a successful "Create Final", every field the form returned starts from its returned value when the written schema is reloaded. |
| Applications.Load | pages/applications.py:58-109 | Corrected copy list. The form shows iff the folder is ensured, every template is copied, the schema and bank load with 200 and the form renders. It is then the loaded schema and its rendered form. |
| Applications.Page | pages/applications.py:41-179 | Corrected copy list. The initial "Viewing" notice never survives. No job gives the no-job warning; a job without a token gives the login warning; any load failure gives the load error. A loaded page without the button reports the copied files. With the button, it reports "Created" iff the creation completes, and the creation error otherwise. |
| Applications.NoticeSeverity | pages/applications.py:155-179 | A success notice is shown only when the job, the token and every loading step were there. |
| Navigation.CurrentPage | utils/navigation.py:26-32 | "tracker" gives Tracker even alongside "applications". "applications" alone gives Applications; neither gives Home. |
| Navigation.IndexOf | utils/navigation.py:7 | `list.index`: the first position of the label, or none when absent. |
| Navigation.IndexAlwaysDefined | utils/navigation.py:6-7 | The resolved page is always one of the three options, at its own position, so the index lookup never raises. |
| Navigation.SyncCurrentPage | utils/navigation.py:18-20 | The current page becomes the selection, and a rerun happens iff it differed. |
| Navigation.SyncSettles | utils/navigation.py:18-20 | After one sync, the same selection writes nothing and does not rerun. |
| Text.Strip | utils/dynamic_json_ui.py:119 | The stripped text is empty iff the text is all whitespace. It has no whitespace at either end, and is the text less whitespace at both ends. |
| Text.StripIdempotent | utils/dynamic_json_ui.py:119 | Stripping twice equals stripping once. |
| Text.Take | pages/tracker.py:84 | `s[:8]` is a prefix of length min(8, \|s\|). |
| Text.Replace | app.py:30 | The replaced character no longer occurs, text without it is unchanged, and the character alone becomes the replacement. |
| Text.ReplaceAppend | app.py:30 | Replacing distributes over concatenation, so with the single-character case it fixes the result of every text. |
| Text.SplitOn | utils/helpers.py:28-29 | `split` yields at least one piece, none containing the separator, and exactly one iff the separator is absent. |
| Text.JoinSplit | utils/helpers.py:28-29 | Joining the split pieces with the separator gives back the text. |

## Left out

- `utils/auth.py` is not part of this model; the login outcome is a parameter. Its `get_access_token` takes no arguments, yet `app.py` passes `force_refresh`.
- HTTP requests, URLs and headers are left out. Each request is a `Reply`: a status code, or a transport failure.
- The workbook session id (`session_resp.json()["id"]`) is not modelled. A 201 reply whose body lacks an id would raise.
- pandas is left out: Excel parsing and writing, `to_datetime` coercion, and the column structure of the loaded table. The parsed table is an input.
- docxtpl templating, saving the filled document and `RichText` internals are left out. A run is a (text, bold) pair, and the fill itself is assumed not to raise.
- JSON encoding and decoding are left out. Decoded values are inputs, and a JSON value is reduced to what the code looks at.
- `datetime.fromisoformat` is an abstract partial function; it only tells aware from naive results. Calendar arithmetic is left out: times are integer seconds.
- Streamlit rendering is left out: widgets, containers, popovers, `st.rerun` and `st.stop`. Widget values and session state are explicit inputs.
- Display-only output is left out: labels and their `key.capitalize()` default, markdown, captions, `_human` formatting, console prints, and the sign-in and refresh buttons.
- The cred.json writer is not part of the source, so nothing constrains what timestamps it writes.
- Dates.ParseYmd: accepts only ASCII digits. Python's `\d` also accepts other Unicode decimal digits.
- Dates.FormatDotted: the round-trip lemmas need four-digit years, because `%Y` padding below 1000 is platform dependent.
- DynamicForm.WidgetValue: a text widget given a non-string value is taken to start empty. Streamlit's own handling of such values is left out.
- DynamicForm.Value: select options are strings. Other JSON values are summarised as `Other`.
- Tracker.Load: the data editor's own validation (column types, date display) is left out.
- Credential.Gate: `generated_dt + timedelta(days=80)` at app.py:39 raises `OverflowError` when the timestamp lies within 80 days of the end of year 9999, before any check and whatever the cache holds. Times are unbounded integers here, so this crash is not modelled; Gate, GateAsWritten and GateAgrees promise nothing about it.
- Credential.GateAgrees: states that the page as written raises only on a naive timestamp. That leaves out the overflow raise at app.py:39 described for Credential.Gate.
- Credential.MissingCacheForcesSignIn: a timestamp near the end of year 9999 raises at app.py:39 before the cache is looked at. That case is not modelled.
- Workbook.OverwriteThenRead: the pandas round trip (`to_excel`, then `read_excel`) is assumed. The lemma takes the parse of the written file to be the written table and shows only that the read hands a parsed table back unchanged.
- Workbook.FormatRow: is the corrected row. It reads the folder flag under "Created Application folder", where the code as written reads "Folder Created" (FormatRowAsWritten, EntryFolderColumnBlank).
- Workbook.AppendRow: appends the corrected row, with the same difference as Workbook.FormatRow.
- Tracker.SubmitEntry: is built on the corrected Workbook.AppendRow, so the appended row keeps the folder flag.
- Tracker.SubmitAppendsLast: is built on the corrected Workbook.AppendRow, with the same difference.
- Credential.Gate: is the corrected gate. For a cached credential whose timestamp has no UTC offset it answers sign-in for an invalid timestamp, where the page as written raises (GateAsWritten and GateAgrees relate the two).
- DynamicForm.WidgetValue: uses the corrected date default. A date saved as "05.March.2025" reloads as that date, where the code as written falls back to today (SavedDateResetsAsWritten).
- DynamicForm.DateFieldsDotted: uses the corrected date default, with the same difference as WidgetValue.
- Applications.Load: copies the corrected template list, with the underscore cover-letter name. The code as written copies the hyphenated name (CopiedAsWritten, CoverLetterTemplateNotCopied).
- Applications.Page: is built on the corrected Load, with the same difference.

## Findings

| source | as written | input that shows it | evidently intended | confidence | as-written member | corrected member |
|---|---|---|---|---|---|---|
| app.py:64 | `now >= valid_until_dt` compares the aware clock with the parsed timestamp, which is naive when the text has no offset. That raises `TypeError` outside any `try`. | `generated_at = "2025-01-01T00:00:00"` with a non-empty cache | a timestamp without offset is treated as invalid (or as UTC) and leads to sign-in | medium; not executed | Credential.NaiveStampCrashes | Credential.Precheck |
| pages/applications.py:32 | The copy list names `nagarjuna-ravella_coverletter.docx` (hyphen). The cover letter is loaded from the application folder as `nagarjuna_ravella_coverletter.docx` (underscore, line 94). | Choosing "Cover Letter" for a new application: the load at line 127 finds no such file in the folder. | the copy list names the same file the page loads | high; not executed | Applications.CoverLetterTemplateNotCopied | Applications.TemplatesCopied |
| utils/dynamic_json_ui.py:77 | A date field yields `%d.%B.%Y` (line 82), and the value is written back into the schema. On the next load it is parsed only as `%Y-%m-%d`, which never succeeds, so the field resets to today. | Saving 5 March 2025: the schema holds "05.March.2025", and the next run shows today's date. | a saved date reloads as itself | medium; not executed | DynamicForm.SavedDateResetsAsWritten | DynamicForm.SavedDateKept |
| utils/onedrive.py:74 | The row is formatted with `new_row.get("Folder Created", "")`. The tracker page writes the flag under "Created Application folder" (pages/tracker.py:92), and shows that column (line 42). | Adding an entry with "Created Application Folder" set to "Yes": the appended row's sixth cell is "". | the folder flag the user chose fills the folder column | high; not executed | Tracker.EntryFolderColumnBlank | Tracker.EntryFolderColumnKept |
