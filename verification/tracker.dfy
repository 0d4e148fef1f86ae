/** The tracker page, `pages/tracker.py`: loading the table, saving the
editable columns back, and adding a new entry through the workbook
append. Widgets become inputs: the form's select boxes are datatypes over
their option lists, the date is `today`, the identifier is a uuid string.
 */
module Tracker {
  import opened Wrappers
  import Text
  import Dates
  import Drive
  import Workbook

  /** The status select box's options. */
  const StatusOptions: seq<string> := ["Preparation", "Applied", "In process", "Rejected"]

  datatype JobStatus = Preparation | Applied | InProcess | Rejected {
    function Name(): (name: string)
      ensures name in StatusOptions
    {
      match this
      case Preparation => StatusOptions[0]
      case Applied => StatusOptions[1]
      case InProcess => StatusOptions[2]
      case Rejected => StatusOptions[3]
    }
  }

  /** Every option is the name of exactly one status. */
  lemma StatusNamesMatchOptions()
    ensures forall s: JobStatus, t: JobStatus :: s.Name() == t.Name() ==> s == t
    ensures forall o :: o in StatusOptions ==> exists s: JobStatus :: s.Name() == o
  {
    assert Preparation.Name() == "Preparation" && Applied.Name() == "Applied";
    assert InProcess.Name() == "In process" && Rejected.Name() == "Rejected";
  }

  /** The job type select box's options. */
  const JobTypeOptions: seq<string> := [
    "Full Stack Developer", "Cloud Engineer", "DevOps Engineer",
    "Python Engineer", "Backend Engineer", "AI Engineer"
  ]

  /** A job type is an index into the option list. */
  type JobType = i: nat | i < 6

  /** The sidebar form as submitted. */
  datatype EntryForm = EntryForm(jobType: JobType, company: string, url: string, folderCreated: bool, status: JobStatus)

  function YesNo(b: bool): string
  {
    if b then "Yes" else "No"
  }

  /** `job_type and company.strip() and url.strip() and folder_created and status`. */
  predicate Complete(form: EntryForm) {
    && JobTypeOptions[form.jobType] != ""
    && Text.Strip(form.company) != ""
    && Text.Strip(form.url) != ""
    && YesNo(form.folderCreated) != ""
    && form.status.Name() != ""
  }

  /** The select boxes always hold a non-empty option, so only the two text
  inputs can leave the form incomplete. */
  lemma CompleteOnlyNeedsText(form: EntryForm)
    ensures Complete(form) <==> Text.Strip(form.company) != "" && Text.Strip(form.url) != ""
  {
    assert |JobTypeOptions[form.jobType]| > 0;
    assert |form.status.Name()| > 0;
  }

  /** The key the tracker writes the folder flag under. */
  const FolderKey := Workbook.FolderColumn

  /** The keys of a tracker row dict. */
  const EntryKeys: set<string> := {"ID", "Job Type", "Date", "Company Name", "Url", FolderKey, "Status"}

  /** The row dict `add_entry` appends, from the seven cell texts. */
  function EntryRow(id: string, jobType: string, date: string, company: string, url: string, folder: string, status: string)
    : (row: map<string, string>)
    ensures row.Keys == EntryKeys
    ensures row["ID"] == id && row["Job Type"] == jobType && row["Date"] == date
    ensures row["Company Name"] == company && row["Url"] == url
    ensures row[FolderKey] == folder && row["Status"] == status
  {
    map["ID" := id, "Job Type" := jobType, "Date" := date, "Company Name" := company,
        "Url" := url, FolderKey := folder, "Status" := status]
  }

  /** The row dict of a submitted form, or `None` when the form is refused.
  Only a blank company or url can refuse it, and both are stored exactly
  as entered. */
  function NewEntry(form: EntryForm, today: Dates.Date, uuid: string): (r: Option<map<string, string>>)
    requires Dates.Valid(today)
    ensures r.Some? <==> Text.Strip(form.company) != "" && Text.Strip(form.url) != ""
    ensures r.Some? ==> r.value.Keys == EntryKeys
    ensures r.Some? ==> r.value["ID"] == Text.Take(uuid, 8)
    ensures r.Some? ==> r.value["Company Name"] == form.company && r.value["Url"] == form.url
    ensures r.Some? ==> r.value["Date"] == Dates.FormatDashed(today)
    ensures r.Some? ==> r.value["Status"] in StatusOptions && r.value["Job Type"] in JobTypeOptions
    ensures r.Some? ==> r.value["Status"] == form.status.Name() && r.value["Job Type"] == JobTypeOptions[form.jobType]
    ensures r.Some? ==> r.value[FolderKey] == YesNo(form.folderCreated)
  {
    CompleteOnlyNeedsText(form);
    if !Complete(form) then None
    else
      var jobType := JobTypeOptions[form.jobType];
      var status := form.status.Name();
      Some(EntryRow(Text.Take(uuid, 8), jobType, Dates.FormatDashed(today), form.company, form.url, YesNo(form.folderCreated), status))
  }

  /** The cells the workbook appends for a tracker row, as written: the
  folder flag is written under a key the workbook never reads, so its
  column is blank. */
  lemma EntryRowCellsAsWritten(id: string, jobType: string, date: string, company: string, url: string, folder: string, status: string)
    ensures Workbook.FormatRowAsWritten(EntryRow(id, jobType, date, company, url, folder, status))
            == [id, jobType, date, company, url, "", status]
  {
    var row := EntryRow(id, jobType, date, company, url, folder, status);
    var cells := Workbook.FormatRowAsWritten(row);
    assert |Workbook.RowKeysAsWritten[5]| != |FolderKey|;
    assert Workbook.RowKeysAsWritten[5] !in row.Keys;
    assert cells[5] == "";
    assert cells[0] == id && cells[1] == jobType && cells[2] == date;
    assert cells[3] == company && cells[4] == url && cells[6] == status;
  }

  /** The cells the corrected workbook appends for a tracker row: every
  cell of the dict, in column order, the folder flag included. */
  lemma EntryRowCells(id: string, jobType: string, date: string, company: string, url: string, folder: string, status: string)
    ensures Workbook.FormatRow(EntryRow(id, jobType, date, company, url, folder, status))
            == [id, jobType, date, company, url, folder, status]
  {
    var row := EntryRow(id, jobType, date, company, url, folder, status);
    var cells := Workbook.FormatRow(row);
    assert cells[0] == id && cells[1] == jobType && cells[2] == date;
    assert cells[3] == company && cells[4] == url && cells[5] == folder && cells[6] == status;
  }

  /** As written, the appended cells of a new entry are ID, type, date,
  company, url, a blank folder column, status. */
  lemma EntryFolderColumnBlank(form: EntryForm, today: Dates.Date, uuid: string)
    requires Dates.Valid(today)
    requires NewEntry(form, today, uuid).Some?
    ensures Workbook.FormatRowAsWritten(NewEntry(form, today, uuid).value)
            == [Text.Take(uuid, 8), JobTypeOptions[form.jobType], Dates.FormatDashed(today),
                form.company, form.url, "", form.status.Name()]
  {
    EntryRowCellsAsWritten(Text.Take(uuid, 8), JobTypeOptions[form.jobType], Dates.FormatDashed(today),
                           form.company, form.url, YesNo(form.folderCreated), form.status.Name());
  }

  /** With the corrected column keys, the appended cells of a new entry
  carry the folder flag as "Yes" or "No". */
  lemma EntryFolderColumnKept(form: EntryForm, today: Dates.Date, uuid: string)
    requires Dates.Valid(today)
    requires NewEntry(form, today, uuid).Some?
    ensures Workbook.FormatRow(NewEntry(form, today, uuid).value)
            == [Text.Take(uuid, 8), JobTypeOptions[form.jobType], Dates.FormatDashed(today),
                form.company, form.url, YesNo(form.folderCreated), form.status.Name()]
  {
    EntryRowCells(Text.Take(uuid, 8), JobTypeOptions[form.jobType], Dates.FormatDashed(today),
                  form.company, form.url, YesNo(form.folderCreated), form.status.Name());
  }

  datatype EntryNotice = FillAllFields | EntryAdded | SaveFailed

  /** Submitting the form: a refused form sends nothing; otherwise the row is
  appended and the notice says whether the remote table took it. */
  function SubmitEntry(table: seq<Workbook.Row>, form: EntryForm, today: Dates.Date, uuid: string,
                       session: Drive.Reply, append: Drive.Reply)
    : (r: (EntryNotice, seq<Workbook.Row>, seq<Workbook.WorkbookCall>))
    requires Dates.Valid(today)
    ensures r.0 == FillAllFields <==> NewEntry(form, today, uuid).None?
    ensures NewEntry(form, today, uuid).Some? ==>
              (r.0 == EntryAdded <==> Drive.Is(session, 201) && Drive.OkOrCreated(append))
    ensures NewEntry(form, today, uuid).Some? ==>
              r.2 == Workbook.AppendRow(table, NewEntry(form, today, uuid).value, session, append).1
    ensures r.0 == FillAllFields ==> r.1 == table && r.2 == []
    ensures r.0 == SaveFailed ==> r.1 == table
    ensures r.0 == EntryAdded ==> r.1 == table + [Workbook.FormatRow(NewEntry(form, today, uuid).value)]
    ensures |r.1| >= |table| && r.1[..|table|] == table
  {
    match NewEntry(form, today, uuid)
    case None => (FillAllFields, table, [])
    case Some(row) =>
      var (result, calls) := Workbook.AppendRow(table, row, session, append);
      match result
      case Ok(t) =>
        assert t == table + [Workbook.FormatRow(row)];
        (EntryAdded, t, calls)
      case Err(_) => (SaveFailed, table, calls)
  }

  /** A complete form whose session opens and whose append is accepted ends
  the remote table with the form's cells: ID, type, date, company, url, the
  folder flag and status. */
  lemma SubmitAppendsLast(table: seq<Workbook.Row>, form: EntryForm, today: Dates.Date, uuid: string,
                          session: Drive.Reply, append: Drive.Reply)
    requires Dates.Valid(today)
    requires Text.Strip(form.company) != "" && Text.Strip(form.url) != ""
    requires Drive.Is(session, 201) && Drive.OkOrCreated(append)
    ensures var r := SubmitEntry(table, form, today, uuid, session, append);
            && r.0 == EntryAdded && |r.1| == |table| + 1
            && r.1[|table|] == [Text.Take(uuid, 8), JobTypeOptions[form.jobType], Dates.FormatDashed(today),
                                form.company, form.url, YesNo(form.folderCreated), form.status.Name()]
  {
    EntryFolderColumnKept(form, today, uuid);
  }

  /** A row of the loaded table. */
  datatype Record = Record(id: string, jobType: string, date: string, company: string, url: string, folderCreated: string, status: string)

  /** A row of the editor: the record without its ID column. */
  datatype Shown = Shown(jobType: string, date: string, company: string, url: string, folderCreated: string, status: string)

  /** `df.drop(columns=["ID"])`. */
  function Display(table: seq<Record>): (shown: seq<Shown>)
    ensures |shown| == |table|
    ensures forall i :: 0 <= i < |table| ==>
              shown[i] == Shown(table[i].jobType, table[i].date, table[i].company, table[i].url, table[i].folderCreated, table[i].status)
  {
    seq(|table|, i requires 0 <= i < |table| =>
      Shown(table[i].jobType, table[i].date, table[i].company, table[i].url, table[i].folderCreated, table[i].status))
  }

  /** `df[["Company Name", "Url", "Status"]] = edited_df[...]`, row by row;
  the editor has as many rows as the table. */
  function ApplyEdits(table: seq<Record>, edited: seq<Shown>): (r: seq<Record>)
    requires |edited| == |table|
    ensures |r| == |table|
    ensures forall i :: 0 <= i < |table| ==>
              && r[i].company == edited[i].company && r[i].url == edited[i].url && r[i].status == edited[i].status
              && r[i].id == table[i].id && r[i].jobType == table[i].jobType
              && r[i].date == table[i].date && r[i].folderCreated == table[i].folderCreated
  {
    seq(|table|, i requires 0 <= i < |table| =>
      table[i].(company := edited[i].company, url := edited[i].url, status := edited[i].status))
  }

  /** Saving an untouched editor writes the table back unchanged. */
  lemma ApplyOwnDisplay(table: seq<Record>)
    ensures ApplyEdits(table, Display(table)) == table
  {
  }

  /** Saving the same edits twice is saving them once. */
  lemma ApplyEditsIdempotent(table: seq<Record>, edited: seq<Shown>)
    requires |edited| == |table|
    ensures ApplyEdits(ApplyEdits(table, edited), edited) == ApplyEdits(table, edited)
  {
  }

  /** The "Save Updates" button: merge, then overwrite the remote file. The
  result is the remote table afterwards and whether the save succeeded. */
  function SaveUpdates(remote: seq<Record>, edited: seq<Shown>, reply: Drive.Reply): (r: (seq<Record>, bool))
    requires |edited| == |remote|
    ensures r.1 <==> Drive.OkOrCreated(reply)
    ensures r.1 ==> r.0 == ApplyEdits(remote, edited)
    ensures !r.1 ==> r.0 == remote
  {
    match Workbook.Overwrite(ApplyEdits(remote, edited), reply)
    case Ok(t) => (t, true)
    case Err(_) => (remote, false)
  }

  datatype View = LoginWarning | LoadFailed | TableView(rows: seq<Shown>)

  /** What the page shows: without a token a warning; otherwise the read
  result, where a non-200 read returns `None` and dropping the ID column of
  `None` raises, so it ends in the load error like a failed read. */
  function Load(hasToken: bool, reply: Drive.Reply, parsed: Option<seq<Record>>): (v: View)
    ensures !hasToken <==> v == LoginWarning
    ensures v.TableView? <==> hasToken && Drive.Is(reply, 200) && parsed.Some?
    ensures v.TableView? ==> v.rows == Display(parsed.value)
  {
    if !hasToken then LoginWarning
    else
      match Workbook.ReadExcel(reply, parsed)
      case Ok(Some(t)) => TableView(Display(t))
      case _ => LoadFailed
  }

  /** Saving and reading back: after a successful save the page, reloaded,
  shows the edited company, URL and status in every row and the remote
  table's other columns. */
  lemma SaveThenLoad(remote: seq<Record>, edited: seq<Shown>, reply: Drive.Reply)
    requires |edited| == |remote|
    ensures var (after, saved) := SaveUpdates(remote, edited, reply);
            var v := Load(true, Drive.Code(200), Some(after));
            && v.TableView? && |v.rows| == |edited|
            && (saved ==> forall i :: 0 <= i < |edited| ==>
                  && v.rows[i].company == edited[i].company && v.rows[i].url == edited[i].url
                  && v.rows[i].status == edited[i].status
                  && v.rows[i].jobType == remote[i].jobType && v.rows[i].date == remote[i].date
                  && v.rows[i].folderCreated == remote[i].folderCreated)
            && (!saved ==> v.rows == Display(remote))
  {
  }

  /** Saving an editor nobody touched leaves the remote table as it was,
  whatever the upload answers. */
  lemma SaveUntouched(remote: seq<Record>, reply: Drive.Reply)
    ensures SaveUpdates(remote, Display(remote), reply).0 == remote
  {
    ApplyOwnDisplay(remote);
  }
}
