/** Folder paths of `utils/helpers.py`: where a job's application files
live, where its templates come from, and how a folder path is cut into
the parent a new folder is created under and the new folder's name.
 */
module Folders {
  import opened Wrappers
  import Text
  import Dates

  /** The fields of a tracker row the paths are built from. */
  datatype Job = Job(date: Dates.Date, company: string, jobType: string)

  const ApplicationsRoot := "Jobs/applications/"
  const TemplatesRoot := "Jobs/templates/"
  const BankFolder := "Jobs/templates/Bullet Bank"

  /** `Jobs/applications/<%B>/<%d>_<company>`. */
  function TargetFolder(job: Job): string
    requires Dates.Valid(job.date)
  {
    ApplicationsRoot + Dates.MonthName(job.date.month) + "/" + Dates.Pad2(job.date.day) + "_" + job.company
  }

  /** `get_template_target_folder_paths`: (template, target, bank), in that order. */
  function FolderPaths(job: Job): (paths: (string, string, string))
    requires Dates.Valid(job.date)
    ensures Text.StartsWith(paths.0, TemplatesRoot) && paths.0[|TemplatesRoot|..] == job.jobType
    ensures paths.1 == TargetFolder(job)
    ensures paths.2 == BankFolder
  {
    (TemplatesRoot + job.jobType, TargetFolder(job), BankFolder)
  }

  /** The target folder determines month, day and company: jobs that differ
  in any of them get different folders. Neither the year nor the job type
  takes part. */
  lemma TargetFolderInjective(a: Job, b: Job)
    requires Dates.Valid(a.date) && Dates.Valid(b.date)
    requires TargetFolder(a) == TargetFolder(b)
    ensures a.date.month == b.date.month && a.date.day == b.date.day && a.company == b.company
  {
    var ma := Dates.MonthName(a.date.month);
    var mb := Dates.MonthName(b.date.month);
    ComponentsInjective(ma, Dates.Pad2(a.date.day), a.company, mb, Dates.Pad2(b.date.day), b.company);
    MonthNameInjective(a.date.month, b.date.month);
    DayCompanyInjective(a.date.day, a.company, b.date.day, b.company);
  }

  /** Below the applications root, the month folder and the last component
  are separated by the first "/". */
  lemma ComponentsInjective(m1: string, p1: string, c1: string, m2: string, p2: string, c2: string)
    requires '/' !in m1 && '/' !in m2
    requires ApplicationsRoot + m1 + "/" + p1 + "_" + c1 == ApplicationsRoot + m2 + "/" + p2 + "_" + c2
    ensures m1 == m2 && p1 + "_" + c1 == p2 + "_" + c2
  {
    var n := |ApplicationsRoot|;
    var t1 := ApplicationsRoot + m1 + "/" + p1 + "_" + c1;
    var t2 := ApplicationsRoot + m2 + "/" + p2 + "_" + c2;
    assert t1[n..] == m1 + "/" + (p1 + "_" + c1);
    assert t2[n..] == m2 + "/" + (p2 + "_" + c2);
    Text.SeparatorSplit(m1, p1 + "_" + c1, m2, p2 + "_" + c2, '/');
  }

  lemma MonthNameInjective(m1: int, m2: int)
    requires 1 <= m1 <= 12 && 1 <= m2 <= 12
    requires Dates.MonthName(m1) == Dates.MonthName(m2)
    ensures m1 == m2
  {
    Dates.MonthNumberOfName(m1);
    Dates.MonthNumberOfName(m2);
  }

  /** The last path component, `<%d>_<company>`, determines day and company. */
  lemma DayCompanyInjective(d1: nat, c1: string, d2: nat, c2: string)
    requires d1 < 100 && d2 < 100
    requires Dates.Pad2(d1) + "_" + c1 == Dates.Pad2(d2) + "_" + c2
    ensures d1 == d2 && c1 == c2
  {
    var r1 := Dates.Pad2(d1) + "_" + c1;
    var r2 := Dates.Pad2(d2) + "_" + c2;
    assert r1[..2] == Dates.Pad2(d1) && r2[..2] == Dates.Pad2(d2);
    assert r1[3..] == c1 && r2[3..] == c2;
  }

  /** Jobs on the same month and day at the same company share a folder,
  whatever their years. */
  lemma YearIgnored(job: Job, year: int)
    requires Dates.Valid(job.date)
    requires Dates.Valid(Dates.Date(year, job.date.month, job.date.day))
    ensures TargetFolder(job) == TargetFolder(job.(date := Dates.Date(year, job.date.month, job.date.day)))
  {
  }

  /** The job type chooses only the template folder: two jobs that differ
  only in type share their application and bank folders. */
  lemma JobTypeIgnored(job: Job, jobType: string)
    requires Dates.Valid(job.date)
    ensures FolderPaths(job).1 == FolderPaths(job.(jobType := jobType)).1
    ensures FolderPaths(job).2 == FolderPaths(job.(jobType := jobType)).2
  {
  }

  /** `"/".join(path.split("/")[:-1])` and `path.split("/")[-1]`. */
  function SplitFolder(path: string): (r: (string, string))
    ensures '/' !in r.1
    ensures '/' in path ==> r.0 + "/" + r.1 == path
    ensures '/' !in path ==> r == ("", path)
  {
    var parts := Text.SplitOn(path, '/');
    var n := |parts|;
    var r := (Text.JoinWith(parts[..n - 1], '/'), parts[n - 1]);
    assert n >= 2 ==> r.0 + "/" + r.1 == path by {
      if n >= 2 {
        Text.JoinSnoc(parts[..n - 1], parts[n - 1], '/');
        assert parts[..n - 1] + [parts[n - 1]] == parts;
        Text.JoinSplit(path, '/');
      }
    }
    r
  }

  /** Cutting `folder + "/" + name` gives back `folder` and `name` when the
  name has no "/": the file paths the application builds split back into
  their folder and file name. */
  lemma SplitFolderJoin(folder: string, name: string)
    requires '/' !in name
    ensures SplitFolder(folder + "/" + name) == (folder, name)
  {
    var path := folder + "/" + name;
    var parts := Text.SplitOn(folder, '/');
    Text.JoinSplit(folder, '/');
    Text.JoinSnoc(parts, name, '/');
    Text.SplitJoin(parts + [name], '/');
    assert (parts + [name])[..|parts|] == parts;
  }
}
