/** The applications page, `pages/applications.py`: for the job chosen on
the tracker page, make sure its folder exists, copy the templates into it,
load the placeholder schema and the bullet bank of the chosen document,
render the form, and on "Create Final" write the form's values back,
fill the Word template, upload it and export it as PDF. One notification
reports how the page run ended.
 */
module Applications {
  import opened Wrappers
  import Text
  import Dates
  import Folders
  import Drive
  import BoldMarkdown
  import DynamicForm
  import BulletBank

  /** The files one document type works with. */
  datatype DocFiles = DocFiles(templateDocx: string, templateJson: string, bulletsJson: string, outputDocx: string, outputPdf: string)

  const CvFiles := DocFiles("nagarjuna_ravella_CV.docx", "CV_template.json", "CV_WEBullets.json", "Preview_CV.docx", "Nagarjuna_Ravella_CV.pdf")

  const CoverLetterFiles := DocFiles("nagarjuna_ravella_coverletter.docx", "CL_template.json", "CL_WEBullets.json", "FINAL_CL.docx", "FINAL_CL.pdf")

  /** The radio button picks the CV set for "CV" and the cover-letter set for
  anything else. */
  function FileSet(docType: string): (files: DocFiles)
    ensures docType == "CV" ==> files == CvFiles
    ensures docType != "CV" ==> files == CoverLetterFiles
  {
    if docType == "CV" then CvFiles else CoverLetterFiles
  }

  predicate NoSlash(files: DocFiles) {
    && '/' !in files.templateDocx && '/' !in files.templateJson && '/' !in files.bulletsJson
    && '/' !in files.outputDocx && '/' !in files.outputPdf
  }

  /** Both document sets name plain files. */
  lemma FileSetsPlain()
    ensures NoSlash(CvFiles) && NoSlash(CoverLetterFiles)
  {
    PlainName(CvFiles.templateDocx);
    PlainName(CvFiles.templateJson);
    PlainName(CvFiles.bulletsJson);
    PlainName(CvFiles.outputDocx);
    PlainName(CvFiles.outputPdf);
    PlainName(CoverLetterFiles.templateDocx);
    PlainName(CoverLetterFiles.templateJson);
    PlainName(CoverLetterFiles.bulletsJson);
    PlainName(CoverLetterFiles.outputDocx);
    PlainName(CoverLetterFiles.outputPdf);
  }

  lemma PlainName(name: string)
    requires forall i :: 0 <= i < |name| ==> name[i] != '/'
    ensures '/' !in name
  {
  }

  /** The two documents never write each other's outputs. */
  lemma OutputsDistinct()
    ensures CvFiles.outputDocx != CoverLetterFiles.outputDocx && CvFiles.outputPdf != CoverLetterFiles.outputPdf
  {
    assert CvFiles.outputDocx[0] != CoverLetterFiles.outputDocx[0];
    assert CvFiles.outputPdf[0] != CoverLetterFiles.outputPdf[0];
  }

  /** Every document path splits back into the folder it was built from and
  the file name. */
  lemma FileSetPaths(docType: string, folder: string)
    ensures var f := FileSet(docType);
            && Folders.SplitFolder(Drive.FilePath(folder, f.templateJson)) == (folder, f.templateJson)
            && Folders.SplitFolder(Drive.FilePath(folder, f.bulletsJson)) == (folder, f.bulletsJson)
            && Folders.SplitFolder(Drive.FilePath(folder, f.templateDocx)) == (folder, f.templateDocx)
            && Folders.SplitFolder(Drive.FilePath(folder, f.outputDocx)) == (folder, f.outputDocx)
            && Folders.SplitFolder(Drive.FilePath(folder, f.outputPdf)) == (folder, f.outputPdf)
  {
    var f := FileSet(docType);
    FileSetsPlain();
    Folders.SplitFolderJoin(folder, f.templateJson);
    Folders.SplitFolderJoin(folder, f.bulletsJson);
    Folders.SplitFolderJoin(folder, f.templateDocx);
    Folders.SplitFolderJoin(folder, f.outputDocx);
    Folders.SplitFolderJoin(folder, f.outputPdf);
  }

  /** The file list the page copies, as written: the cover letter's name has
  a hyphen where the document set has an underscore. */
  const CopiedAsWritten: seq<string> := ["nagarjuna_ravella_CV.docx", "nagarjuna-ravella_coverletter.docx", "CV_template.json", "CL_template.json"]

  /** The file list copied into a new application folder: both Word
  templates and both placeholder schemas. */
  const TemplateFiles: seq<string> := [CvFiles.templateDocx, CoverLetterFiles.templateDocx, CvFiles.templateJson, CoverLetterFiles.templateJson]

  /** As written, the cover-letter template the page reads from the
  application folder is not among the copied files. */
  lemma CoverLetterTemplateNotCopied()
    ensures FileSet("Cover Letter").templateDocx !in CopiedAsWritten
  {
    var name := FileSet("Cover Letter").templateDocx;
    assert name[0] != CopiedAsWritten[2][0] && name[0] != CopiedAsWritten[3][0];
    assert name[9] != CopiedAsWritten[1][9];
    assert name[18] != CopiedAsWritten[0][18];
  }

  /** Every template a document reads from the application folder is copied
  there. */
  lemma TemplatesCopied(docType: string)
    ensures FileSet(docType).templateDocx in TemplateFiles
    ensures FileSet(docType).templateJson in TemplateFiles
  {
    assert TemplateFiles[0] == CvFiles.templateDocx && TemplateFiles[1] == CoverLetterFiles.templateDocx;
    assert TemplateFiles[2] == CvFiles.templateJson && TemplateFiles[3] == CoverLetterFiles.templateJson;
  }

  /** The replies to the three requests of one file copy. */
  datatype CopyReplies = CopyReplies(probe: Drive.Reply, download: Drive.Reply, upload: Drive.Reply)

  function Copy(name: string, source: string, target: string, r: CopyReplies): Drive.Step<Drive.CopyAction>
  {
    Drive.CopyFile(name, source, target, r.probe, r.download, r.upload)
  }

  /** A step that follows `actions` already done and `calls` already sent. */
  function Prepend(actions: seq<Drive.CopyAction>, calls: seq<Drive.Call>, s: Drive.Step<seq<Drive.CopyAction>>): Drive.Step<seq<Drive.CopyAction>>
  {
    Drive.Step(match s.result case Ok(v) => Ok(actions + v) case Err(e) => Err(e), calls + s.calls)
  }

  /** The requests the first `n` file copies send, in order. */
  function CopyCalls(names: seq<string>, source: string, target: string, replies: seq<CopyReplies>, n: nat): seq<Drive.Call>
    requires n <= |names| == |replies|
  {
    if n == 0 then [] else CopyCalls(names, source, target, replies, n - 1) + Copy(names[n - 1], source, target, replies[n - 1]).calls
  }

  /** The copy loop: every file in order, the first failure ending it. It
  fails with the error of the first copy that fails, after sending the
  requests of the copies up to and including that one and nothing more. */
  function CopyAll(names: seq<string>, source: string, target: string, replies: seq<CopyReplies>): (s: Drive.Step<seq<Drive.CopyAction>>)
    requires |replies| == |names|
    ensures s.result.Ok? <==> forall i :: 0 <= i < |names| ==> Copy(names[i], source, target, replies[i]).result.Ok?
    ensures s.result.Ok? ==> |s.result.value| == |names|
    ensures s.result.Ok? ==> forall i :: 0 <= i < |names| ==> s.result.value[i] == Copy(names[i], source, target, replies[i]).result.value
    ensures s.result.Ok? ==> s.calls == CopyCalls(names, source, target, replies, |names|)
    ensures s.result.Err? ==> exists k :: FirstFailure(names, source, target, replies, k, s)
    ensures forall c :: c in s.calls && Drive.Writes(c) ==> exists i :: 0 <= i < |names| && c == Drive.Upload(Drive.FilePath(target, names[i]))
    decreases |names|
  {
    if names == [] then Drive.Step(Ok([]), [])
    else
      var first := Copy(names[0], source, target, replies[0]);
      match first.result
      case Err(e) =>
        assert forall c :: c in first.calls && Drive.Writes(c) ==> c == Drive.Upload(Drive.FilePath(target, names[0]));
        var s := Drive.Step(Err(e), first.calls);
        assert CopyCalls(names, source, target, replies, 1) == [] + first.calls;
        assert FirstFailure(names, source, target, replies, 0, s);
        s
      case Ok(a) =>
        var rest := CopyAll(names[1..], source, target, replies[1..]);
        CopyAllResults(names, source, target, replies, a, rest);
        CopyAllWrites(names, target, first.calls, rest.calls);
        CopyAllCalls(names, source, target, replies, a, rest);
        Prepend([a], first.calls, rest)
  }

  /** Copy `k` is the first to fail, `s` fails with its error, and `s` sent
  the requests of copies `0` to `k`. */
  predicate FirstFailure(names: seq<string>, source: string, target: string, replies: seq<CopyReplies>, k: int,
                         s: Drive.Step<seq<Drive.CopyAction>>)
    requires |replies| == |names|
  {
    && 0 <= k < |names|
    && (forall i :: 0 <= i < k ==> Copy(names[i], source, target, replies[i]).result.Ok?)
    && s.result.Err? && Copy(names[k], source, target, replies[k]).result == Err(s.result.error)
    && s.calls == CopyCalls(names, source, target, replies, k + 1)
  }

  /** The requests of a successful first copy followed by those of the rest. */
  lemma {:induction false} CopyCallsCons(names: seq<string>, source: string, target: string, replies: seq<CopyReplies>, m: nat)
    requires |replies| == |names| > 0 && m < |names|
    ensures Copy(names[0], source, target, replies[0]).calls + CopyCalls(names[1..], source, target, replies[1..], m)
            == CopyCalls(names, source, target, replies, m + 1)
    decreases m
  {
    var c0 := Copy(names[0], source, target, replies[0]).calls;
    if m == 0 {
      assert CopyCalls(names, source, target, replies, 1) == [] + c0;
    } else {
      CopyCallsCons(names, source, target, replies, m - 1);
      assert names[1..][m - 1] == names[m] && replies[1..][m - 1] == replies[m];
      var cm := Copy(names[m], source, target, replies[m]).calls;
      assert c0 + (CopyCalls(names[1..], source, target, replies[1..], m - 1) + cm)
             == (c0 + CopyCalls(names[1..], source, target, replies[1..], m - 1)) + cm;
    }
  }

  /** The requests and the first failure of the copy loop after a
  successful first copy. */
  lemma CopyAllCalls(names: seq<string>, source: string, target: string, replies: seq<CopyReplies>,
                     a: Drive.CopyAction, rest: Drive.Step<seq<Drive.CopyAction>>)
    requires |replies| == |names| > 0
    requires Copy(names[0], source, target, replies[0]).result == Ok(a)
    requires rest.result.Ok? ==> rest.calls == CopyCalls(names[1..], source, target, replies[1..], |names| - 1)
    requires rest.result.Err? ==> exists k :: FirstFailure(names[1..], source, target, replies[1..], k, rest)
    ensures var s := Prepend([a], Copy(names[0], source, target, replies[0]).calls, rest);
            && (s.result.Ok? ==> s.calls == CopyCalls(names, source, target, replies, |names|))
            && (s.result.Err? ==> exists k :: FirstFailure(names, source, target, replies, k, s))
  {
    var s := Prepend([a], Copy(names[0], source, target, replies[0]).calls, rest);
    if rest.result.Ok? {
      CopyCallsCons(names, source, target, replies, |names| - 1);
    } else {
      var k :| FirstFailure(names[1..], source, target, replies[1..], k, rest);
      CopyCallsCons(names, source, target, replies, k + 1);
      assert names[1..][k] == names[k + 1] && replies[1..][k] == replies[k + 1];
      forall i | 0 <= i < k + 1
        ensures Copy(names[i], source, target, replies[i]).result.Ok?
      {
        if i > 0 {
          assert names[1..][i - 1] == names[i] && replies[1..][i - 1] == replies[i];
        }
      }
      assert FirstFailure(names, source, target, replies, k + 1, s);
    }
  }

  /** The outcome of the copy loop after a successful first copy: the rest
  of the loop's outcome, with the first action in front. */
  lemma CopyAllResults(names: seq<string>, source: string, target: string, replies: seq<CopyReplies>,
                       a: Drive.CopyAction, rest: Drive.Step<seq<Drive.CopyAction>>)
    requires |replies| == |names| > 0
    requires Copy(names[0], source, target, replies[0]).result == Ok(a)
    requires rest.result.Ok? <==> forall i :: 0 <= i < |names| - 1 ==> Copy(names[1..][i], source, target, replies[1..][i]).result.Ok?
    requires rest.result.Ok? ==> |rest.result.value| == |names| - 1
    requires rest.result.Ok? ==> forall i :: 0 <= i < |names| - 1 ==> rest.result.value[i] == Copy(names[1..][i], source, target, replies[1..][i]).result.value
    ensures var s := Prepend([a], [], rest).result;
            && (s.Ok? <==> forall i :: 0 <= i < |names| ==> Copy(names[i], source, target, replies[i]).result.Ok?)
            && (s.Ok? ==> |s.value| == |names|)
            && (s.Ok? ==> forall i :: 0 <= i < |names| ==> s.value[i] == Copy(names[i], source, target, replies[i]).result.value)
  {
    var s := Prepend([a], [], rest).result;
    assert forall i :: 1 <= i < |names| ==> names[1..][i - 1] == names[i] && replies[1..][i - 1] == replies[i];
    if s.Ok? {
      assert s.value == [a] + rest.result.value;
      assert forall i :: 1 <= i < |names| ==> s.value[i] == rest.result.value[i - 1];
    }
  }

  /** The files the copy loop writes after a successful first copy: the
  first file's target, or one the rest of the loop writes. */
  lemma CopyAllWrites(names: seq<string>, target: string, first: seq<Drive.Call>, rest: seq<Drive.Call>)
    requires |names| > 0
    requires forall k :: 0 <= k < |first| && Drive.Writes(first[k]) ==> first[k] == Drive.Upload(Drive.FilePath(target, names[0]))
    requires forall c :: c in rest && Drive.Writes(c) ==> exists i :: 0 <= i < |names| - 1 && c == Drive.Upload(Drive.FilePath(target, names[1..][i]))
    ensures forall c :: c in first + rest && Drive.Writes(c) ==> exists i :: 0 <= i < |names| && c == Drive.Upload(Drive.FilePath(target, names[i]))
  {
    forall c | c in first + rest && Drive.Writes(c)
      ensures exists i :: 0 <= i < |names| && c == Drive.Upload(Drive.FilePath(target, names[i]))
    {
      if c in rest {
        var i :| 0 <= i < |names| - 1 && c == Drive.Upload(Drive.FilePath(target, names[1..][i]));
        assert names[1..][i] == names[i + 1];
      } else {
        var k :| 0 <= k < |first| && first[k] == c;
      }
    }
  }

  lemma PrependNothing(s: Drive.Step<seq<Drive.CopyAction>>)
    ensures Prepend([], [], s) == s
  {
    assert [] + s.calls == s.calls;
    if s.result.Ok? {
      assert [] + s.result.value == s.result.value;
    }
  }

  lemma PrependPrepend(a: seq<Drive.CopyAction>, ca: seq<Drive.Call>, b: seq<Drive.CopyAction>, cb: seq<Drive.Call>, s: Drive.Step<seq<Drive.CopyAction>>)
    ensures Prepend(a, ca, Prepend(b, cb, s)) == Prepend(a + b, ca + cb, s)
  {
    assert ca + (cb + s.calls) == ca + cb + s.calls;
    if s.result.Ok? {
      assert a + (b + s.result.value) == a + b + s.result.value;
    }
  }

  /** `for file_name in file_names: copy_file_between_folders(...)`. */
  method CopyTemplates(names: seq<string>, source: string, target: string, replies: seq<CopyReplies>)
    returns (s: Drive.Step<seq<Drive.CopyAction>>)
    requires |replies| == |names|
    ensures s == CopyAll(names, source, target, replies)
  {
    var actions: seq<Drive.CopyAction> := [];
    var calls: seq<Drive.Call> := [];
    var i := 0;
    assert names[0..] == names && replies[0..] == replies;
    PrependNothing(CopyAll(names, source, target, replies));
    while i < |names|
      invariant 0 <= i <= |names|
      invariant CopyAll(names, source, target, replies) == Prepend(actions, calls, CopyAll(names[i..], source, target, replies[i..]))
    {
      var step := Copy(names[i], source, target, replies[i]);
      assert names[i..][1..] == names[i + 1..] && replies[i..][1..] == replies[i + 1..];
      match step.result {
        case Err(e) =>
          return Drive.Step(Err(e), calls + step.calls);
        case Ok(a) =>
          PrependPrepend(actions, calls, [a], step.calls, CopyAll(names[i + 1..], source, target, replies[i + 1..]));
          actions := actions + [a];
          calls := calls + step.calls;
      }
      i := i + 1;
    }
    assert CopyAll(names[i..], source, target, replies[i..]) == Drive.Step(Ok([]), []);
    assert actions + [] == actions && calls + [] == calls;
    return Drive.Step(Ok(actions), calls);
  }

  /** `placeholders_dict[key]["value"] = result[key]` for every result key
  the schema has. */
  function MergeValues(schema: DynamicForm.Schema, result: map<string, DynamicForm.Value>): (merged: DynamicForm.Schema)
    ensures |merged| == |schema|
    ensures forall i :: 0 <= i < |schema| ==> merged[i].0 == schema[i].0 && merged[i].1.kind == schema[i].1.kind
    ensures forall i :: 0 <= i < |schema| && schema[i].0 in result ==> merged[i].1.value == Some(result[schema[i].0])
    ensures forall i :: 0 <= i < |schema| && schema[i].0 !in result ==> merged[i] == schema[i]
  {
    seq(|schema|, i requires 0 <= i < |schema| =>
      if schema[i].0 in result then (schema[i].0, schema[i].1.(value := Some(result[schema[i].0]))) else schema[i])
  }

  /** Writing the same values back twice is writing them once. */
  lemma MergeIdempotent(schema: DynamicForm.Schema, result: map<string, DynamicForm.Value>)
    ensures MergeValues(MergeValues(schema, result), result) == MergeValues(schema, result)
  {
  }

  /** After a merge, each merged field starts from the value written: the
  next render shows what was saved. */
  lemma MergedDefaults(schema: DynamicForm.Schema, result: map<string, DynamicForm.Value>, i: nat)
    requires i < |schema| && schema[i].0 in result
    ensures DynamicForm.Default(MergeValues(schema, result)[i].1) == result[schema[i].0]
  {
  }

  /** A select field offers the options of its own value, and the merge
  replaces that value with the chosen option (or null): once saved, the
  field offers no options and renders as null. */
  lemma SavedSelectLosesOptions(schema: DynamicForm.Schema, result: map<string, DynamicForm.Value>, i: nat, ui: DynamicForm.Ui)
    requires i < |schema| && schema[i].1.kind == Some("select") && schema[i].0 in result
    requires result[schema[i].0].Str? || result[schema[i].0].Null?
    requires DynamicForm.UiValid(ui)
    ensures DynamicForm.SelectOptions(DynamicForm.Default(MergeValues(schema, result)[i].1)) == []
    ensures DynamicForm.WidgetValue(schema[i].0, MergeValues(schema, result)[i].1, ui) == DynamicForm.Null
  {
    MergedDefaults(schema, result, i);
  }

  /** The render result as a dict: the assignments `result[key] = ...` in
  order, a later one for the same key overriding an earlier one. */
  function ResultMap(entries: seq<DynamicForm.Entry>): (m: map<string, DynamicForm.Value>)
    ensures forall k :: k in m <==> k in DynamicForm.EntryKeys(entries)
  {
    if entries == [] then map[]
    else
      var rest := ResultMap(entries[1..]);
      assert forall k :: k in DynamicForm.EntryKeys(entries) <==> k == entries[0].key || k in DynamicForm.EntryKeys(entries[1..]) by {
        assert DynamicForm.EntryKeys(entries) == [entries[0].key] + DynamicForm.EntryKeys(entries[1..]);
      }
      if entries[0].key in rest then rest else rest[entries[0].key := entries[0].value]
  }

  /** A key maps to the value of its last widget. */
  lemma {:induction false} ResultMapLast(entries: seq<DynamicForm.Entry>, j: nat)
    requires j < |entries|
    requires forall j2 :: j < j2 < |entries| ==> entries[j2].key != entries[j].key
    ensures entries[j].key in ResultMap(entries) && ResultMap(entries)[entries[j].key] == entries[j].value
    decreases j
  {
    var rest := ResultMap(entries[1..]);
    if j == 0 {
      forall k | 0 <= k < |entries| - 1
        ensures DynamicForm.EntryKeys(entries[1..])[k] != entries[0].key
      {
        assert entries[1..][k] == entries[k + 1];
      }
      assert entries[0].key !in rest;
    } else {
      assert entries[1..][j - 1] == entries[j];
      ResultMapLast(entries[1..], j - 1);
      assert DynamicForm.EntryKeys(entries)[j] == entries[j].key;
    }
  }

  /** What a placeholder of the Word template is filled with. */
  datatype Filler = Rich(runs: seq<BoldMarkdown.Run>) | Plain(value: DynamicForm.Value)

  predicate IsBulletKey(key: string) {
    Text.StartsWith(key, "Bullet")
  }

  /** `parse_bullet_to_richtext` is only defined on text. */
  predicate Fillable(schema: DynamicForm.Schema) {
    forall i :: 0 <= i < |schema| && IsBulletKey(schema[i].0) ==> DynamicForm.Default(schema[i].1).Str?
  }

  /** What one placeholder is filled with. */
  function Fill(key: string, value: DynamicForm.Value): (r: Result<Filler, string>)
    ensures r.Err? <==> IsBulletKey(key) && !value.Str?
    ensures r.Ok? && IsBulletKey(key) ==> r.value == Rich(BoldMarkdown.ParseBullet(value.s))
    ensures r.Ok? && !IsBulletKey(key) ==> r.value == Plain(value)
  {
    if !IsBulletKey(key) then Ok(Plain(value))
    else if value.Str? then Ok(Rich(BoldMarkdown.ParseBullet(value.s)))
    else Err(key)
  }

  /** The render mapping: every placeholder key in schema order; "Bullet…"
  keys become the rich text of their value, the others their raw value
  ("" when the field has none). A bullet value that is not text makes the
  parse raise. */
  function FillMapping(schema: DynamicForm.Schema): (r: Result<seq<(string, Filler)>, string>)
    ensures r.Ok? <==> Fillable(schema)
    ensures r.Ok? ==> |r.value| == |schema|
    ensures r.Ok? ==> forall i :: 0 <= i < |schema| ==>
              r.value[i].0 == schema[i].0 && Fill(schema[i].0, DynamicForm.Default(schema[i].1)) == Ok(r.value[i].1)
    ensures r.Err? ==> exists i :: 0 <= i < |schema| && r.error == schema[i].0
                                  && Fill(schema[i].0, DynamicForm.Default(schema[i].1)).Err?
  {
    if schema == [] then Ok([])
    else
      var key := schema[0].0;
      match Fill(key, DynamicForm.Default(schema[0].1))
      case Err(e) => Err(e)
      case Ok(filler) =>
        match FillMapping(schema[1..])
        case Err(e) => Err(e)
        case Ok(rest) =>
          assert forall i :: 1 <= i < |schema| ==> schema[1..][i - 1] == schema[i];
          Ok([(key, filler)] + rest)
  }

  /** A bullet saved as plain text, without "**", fills its placeholder with
  one plain run of that text. */
  lemma PlainBulletFillsPlain(schema: DynamicForm.Schema, result: map<string, DynamicForm.Value>, i: nat, text: string)
    requires i < |schema| && IsBulletKey(schema[i].0) && schema[i].0 in result && result[schema[i].0] == DynamicForm.Str(text)
    requires !BoldMarkdown.HasStars(text)
    requires FillMapping(MergeValues(schema, result)).Ok?
    ensures FillMapping(MergeValues(schema, result)).value[i] == (schema[i].0, Rich([BoldMarkdown.Run(text, false)]))
  {
    var merged := MergeValues(schema, result);
    var m := FillMapping(merged).value;
    assert DynamicForm.Keys(m)[i] == DynamicForm.Keys(merged)[i];
    BoldMarkdown.PlainText(text);
  }

  /** The replies to the requests of "Create Final". */
  datatype CreateReplies = CreateReplies(jsonUpload: Drive.Reply, docxLoad: Drive.Reply, docxUpload: Drive.Reply,
                                         conversion: Drive.Reply, pdfUpload: Drive.Reply)

  datatype CreateFailure = Remote(failure: Drive.Failure) | NotText(key: string)

  /** "Create Final": write the form's values into the schema and upload it,
  load the Word template, fill it, upload the document and export it as
  PDF. The result is the schema that was written. */
  function Create(schema: DynamicForm.Schema, result: map<string, DynamicForm.Value>, target: string, files: DocFiles, g: CreateReplies)
    : (r: (Result<DynamicForm.Schema, CreateFailure>, seq<Drive.Call>))
    ensures r.0.Ok? <==> && Drive.OkOrCreated(g.jsonUpload) && Drive.Is(g.docxLoad, 200)
                         && Fillable(MergeValues(schema, result))
                         && Drive.OkOrCreated(g.docxUpload) && Drive.Is(g.conversion, 200) && Drive.OkOrCreated(g.pdfUpload)
    ensures r.0.Ok? ==> r.0.value == MergeValues(schema, result)
    ensures |r.1| >= 1 && r.1[0] == Drive.Upload(Drive.FilePath(target, files.templateJson))
    ensures r.0.Ok? ==> r.1 == [Drive.Upload(Drive.FilePath(target, files.templateJson)),
                                Drive.Download(Drive.FilePath(target, files.templateDocx)),
                                Drive.Upload(Drive.FilePath(target, files.outputDocx)),
                                Drive.ExportPdf(Drive.FilePath(target, files.outputDocx)),
                                Drive.Upload(Drive.FilePath(target, files.outputPdf))]
    ensures forall c :: c in r.1 && Drive.Writes(c) ==>
              c in {Drive.Upload(Drive.FilePath(target, files.templateJson)),
                    Drive.Upload(Drive.FilePath(target, files.outputDocx)),
                    Drive.Upload(Drive.FilePath(target, files.outputPdf))}
  {
    var merged := MergeValues(schema, result);
    var jsonPath := Drive.FilePath(target, files.templateJson);
    var docxPath := Drive.FilePath(target, files.templateDocx);
    var outPath := Drive.FilePath(target, files.outputDocx);
    var pdfPath := Drive.FilePath(target, files.outputPdf);
    var c1 := [Drive.Upload(jsonPath)];
    match Drive.UploadFile(jsonPath, g.jsonUpload)
    case Err(e) => (Err(Remote(e)), c1)
    case Ok(_) =>
      var c2 := c1 + [Drive.Download(docxPath)];
      match Drive.LoadDocx(docxPath, g.docxLoad)
      case Err(e) => (Err(Remote(e)), c2)
      case Ok(_) =>
        match FillMapping(merged)
        case Err(key) => (Err(NotText(key)), c2)
        case Ok(_) =>
          var c3 := c2 + [Drive.Upload(outPath)];
          match Drive.UploadFile(outPath, g.docxUpload)
          case Err(e) => (Err(Remote(e)), c3)
          case Ok(_) =>
            var pdf := Drive.DocxAsPdf(outPath, pdfPath, g.conversion, g.pdfUpload);
            var c4 := c3 + pdf.calls;
            match pdf.result
            case Err(e) => (Err(Remote(e)), c4)
            case Ok(_) => (Ok(merged), c4)
  }

  /** What "Create Final" writes is what the form held: reloading the
  written schema starts every field the form returned from its value. */
  lemma CreateSavesValues(schema: DynamicForm.Schema, result: map<string, DynamicForm.Value>, target: string, files: DocFiles, g: CreateReplies)
    requires Create(schema, result, target, files, g).0.Ok?
    ensures var written := Create(schema, result, target, files, g).0.value;
            && |written| == |schema|
            && forall i :: 0 <= i < |schema| && schema[i].0 in result ==>
                 written[i].0 == schema[i].0 && DynamicForm.Default(written[i].1) == result[schema[i].0]
  {
    forall i | 0 <= i < |schema| && schema[i].0 in result
      ensures DynamicForm.Default(MergeValues(schema, result)[i].1) == result[schema[i].0]
    {
      MergedDefaults(schema, result, i);
    }
  }

  /** The replies to the requests a page run sends before the form shows. */
  datatype LoadReplies = LoadReplies(
    folderProbe: Drive.Reply, folderCreate: Drive.Reply, copies: seq<CopyReplies>,
    schemaReply: Drive.Reply, schema: Option<DynamicForm.Schema>,
    bankReply: Drive.Reply, bank: Option<BulletBank.Bank>)

  datatype Severity = Success | Failure | Warning

  datatype Notice =
    | Viewing(job: Folders.Job)          // "Viewing application for …"
    | FilesCopied(folder: string)        // "Files copied to …"
    | LoadFailed                         // "Failed to load templates or files."
    | Created(docType: string)           // "Final … and PDF created successfully!"
    | CreateFailed(docType: string)      // "Error creating … and PDF."
    | LoginNeeded                        // "Please log in to access your OneDrive data."
    | NoJob                              // "No job selected. …"

  function SeverityOf(n: Notice): Severity
  {
    match n
    case Viewing(_) => Success
    case FilesCopied(_) => Success
    case Created(_) => Success
    case LoadFailed => Failure
    case CreateFailed(_) => Failure
    case LoginNeeded => Warning
    case NoJob => Warning
  }

  /** The page up to the rendered form: the folder, the copies, the schema,
  the bank and the form, or `None` when any of them raises. */
  function Load(job: Folders.Job, docType: string, remote: LoadReplies, ui: DynamicForm.Ui)
    : (r: Option<(DynamicForm.Schema, seq<DynamicForm.Entry>)>)
    requires Dates.Valid(job.date) && DynamicForm.UiValid(ui)
    requires |remote.copies| == |TemplateFiles|
    ensures r.Some? ==> Drive.EnsureFolder(Folders.TargetFolder(job), remote.folderProbe, remote.folderCreate).result.Ok?
    ensures r.Some? ==> CopyAll(TemplateFiles, Folders.FolderPaths(job).0, Folders.TargetFolder(job), remote.copies).result.Ok?
    ensures r.Some? ==> Drive.Is(remote.schemaReply, 200) && remote.schema == Some(r.value.0)
    ensures r.Some? ==> Drive.Is(remote.bankReply, 200) && remote.bank.Some?
    ensures r.Some? ==> DynamicForm.Render(r.value.0, ui) == Ok(r.value.1)
    ensures && Drive.EnsureFolder(Folders.TargetFolder(job), remote.folderProbe, remote.folderCreate).result.Ok?
            && CopyAll(TemplateFiles, Folders.FolderPaths(job).0, Folders.TargetFolder(job), remote.copies).result.Ok?
            && Drive.Is(remote.schemaReply, 200) && remote.schema.Some?
            && Drive.Is(remote.bankReply, 200) && remote.bank.Some?
            && DynamicForm.Render(remote.schema.value, ui).Ok?
            ==> r == Some((remote.schema.value, DynamicForm.Render(remote.schema.value, ui).value))
  {
    var (template, target, bank) := Folders.FolderPaths(job);
    var files := FileSet(docType);
    if Drive.EnsureFolder(target, remote.folderProbe, remote.folderCreate).result.Err? then None
    else if CopyAll(TemplateFiles, template, target, remote.copies).result.Err? then None
    else
      match Drive.LoadJson(Drive.FilePath(target, files.templateJson), remote.schemaReply, remote.schema)
      case Err(_) => None
      case Ok(schema) =>
        match Drive.LoadJson(Drive.FilePath(bank, files.bulletsJson), remote.bankReply, remote.bank)
        case Err(_) => None
        case Ok(_) =>
          match DynamicForm.Render(schema, ui)
          case Err(_) => None
          case Ok(entries) => Some((schema, entries))
  }

  /** The notification a page run ends with. The "Viewing" notice it starts
  with is always replaced: by the outcome of loading, of "Create Final"
  when it is pressed, or by a warning. */
  function Page(job: Option<Folders.Job>, hasToken: bool, docType: string, remote: LoadReplies,
                ui: DynamicForm.Ui, pressed: bool, g: CreateReplies): (n: Notice)
    requires job.Some? ==> Dates.Valid(job.value.date)
    requires DynamicForm.UiValid(ui) && |remote.copies| == |TemplateFiles|
    ensures !n.Viewing?
    ensures n == NoJob <==> job.None?
    ensures n == LoginNeeded <==> job.Some? && !hasToken
    ensures n == LoadFailed <==> job.Some? && hasToken && Load(job.value, docType, remote, ui).None?
    ensures n.FilesCopied? ==> !pressed && n.folder == Folders.TargetFolder(job.value)
    ensures n.Created? || n.CreateFailed? ==> pressed && n.docType == docType
    ensures job.Some? && hasToken && Load(job.value, docType, remote, ui).Some? ==>
              (n == FilesCopied(Folders.TargetFolder(job.value)) <==> !pressed)
    ensures job.Some? && hasToken && Load(job.value, docType, remote, ui).Some? && pressed ==>
              var (schema, entries) := Load(job.value, docType, remote, ui).value;
              var created := Create(schema, ResultMap(entries), Folders.TargetFolder(job.value), FileSet(docType), g).0.Ok?;
              (n == Created(docType) <==> created) && (n == CreateFailed(docType) <==> !created)
  {
    var notice := if job.Some? then Viewing(job.value) else NoJob;
    if job.None? then notice
    else if !hasToken then LoginNeeded
    else
      var target := Folders.TargetFolder(job.value);
      match Load(job.value, docType, remote, ui)
      case None => LoadFailed
      case Some((schema, entries)) =>
        if !pressed then FilesCopied(target)
        else
          match Create(schema, ResultMap(entries), target, FileSet(docType), g).0
          case Ok(_) => Created(docType)
          case Err(_) => CreateFailed(docType)
  }

  /** A success notice means every step it reports completed; a failure
  notice means one of them did not. */
  lemma NoticeSeverity(job: Option<Folders.Job>, hasToken: bool, docType: string, remote: LoadReplies,
                       ui: DynamicForm.Ui, pressed: bool, g: CreateReplies)
    requires job.Some? ==> Dates.Valid(job.value.date)
    requires DynamicForm.UiValid(ui) && |remote.copies| == |TemplateFiles|
    ensures var n := Page(job, hasToken, docType, remote, ui, pressed, g);
            SeverityOf(n) == Success ==> job.Some? && hasToken && Load(job.value, docType, remote, ui).Some?
  {
  }
}
