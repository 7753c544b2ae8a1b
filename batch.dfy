/**
 * The batch entry point (`parse_documents`): list the input folder, keep
 * the regular files, and schedule one background task per file; and the
 * run of one scheduled task against the output folder.
 */
module Batch {
  import opened Wrappers
  import opened Replies
  import opened Paths
  import opened Download
  import opened Submit

  /** One entry of the input folder's listing. */
  datatype Entry = Entry(name: string, isFile: bool)

  /** A scheduled task: `call_upstage_api(input_path, output_path)`. */
  datatype Job = Job(inputPath: string, outputPath: string)

  const Ack := "Processing initiated"

  /** The names of the entries that are regular files, in listing order.
      Its membership is stated by RegularFilesMembers and its order by
      RegularFilesAppend; the ensures here is only a length bound. */
  function RegularFiles(listing: seq<Entry>): (files: seq<string>)
    ensures |files| <= |listing|
  {
    if listing == [] then []
    else
      var rest := RegularFiles(listing[1..]);
      if listing[0].isFile then [listing[0].name] + rest else rest
  }

  /** A name is kept exactly when some listing entry of that name is a regular file. */
  lemma {:induction false} RegularFilesMembers(listing: seq<Entry>, n: string)
    ensures n in RegularFiles(listing) <==>
            exists i :: 0 <= i < |listing| && listing[i].isFile && listing[i].name == n
  {
    if listing != [] {
      RegularFilesMembers(listing[1..], n);
      assert forall i :: 0 < i < |listing| ==> listing[i] == listing[1..][i - 1];
      if n in RegularFiles(listing[1..]) {
        var i :| 0 <= i < |listing[1..]| && listing[1..][i].isFile && listing[1..][i].name == n;
        assert listing[i + 1] == listing[1..][i];
      }
    }
  }

  /** The filter keeps listing order: it distributes over concatenation. */
  lemma {:induction false} RegularFilesAppend(a: seq<Entry>, b: seq<Entry>)
    ensures RegularFiles(a + b) == RegularFiles(a) + RegularFiles(b)
  {
    if a == [] {
      assert a + b == b;
    } else {
      assert (a + b)[1..] == a[1..] + b;
      RegularFilesAppend(a[1..], b);
    }
  }

  /** No name occurs twice. */
  predicate Distinct(names: seq<string>) {
    forall i, j :: 0 <= i < j < |names| ==> names[i] != names[j]
  }

  /** Distinct listing names stay distinct after the filter. */
  lemma {:induction false} RegularFilesDistinct(listing: seq<Entry>)
    requires forall i, j :: 0 <= i < j < |listing| ==> listing[i].name != listing[j].name
    ensures Distinct(RegularFiles(listing))
  {
    if listing != [] {
      var tail := listing[1..];
      assert forall i :: 0 <= i < |tail| ==> tail[i] == listing[i + 1];
      RegularFilesDistinct(tail);
      var rest := RegularFiles(tail);
      if listing[0].isFile {
        var head := listing[0].name;
        RegularFilesMembers(tail, head);
        assert head !in rest;
        var files := [head] + rest;
        assert RegularFiles(listing) == files;
        assert Distinct(rest);
        forall i, j | 0 <= i < j < |files| ensures files[i] != files[j] {
          assert files[j] == rest[j - 1];
          if i == 0 {
            assert rest[j - 1] in rest;
          } else {
            assert files[i] == rest[i - 1];
          }
        }
      } else {
        assert RegularFiles(listing) == rest;
      }
    }
  }

  /** Every file kept by the filter carries a name from the listing. */
  lemma RegularFilesNames(listing: seq<Entry>, k: nat)
    requires forall i :: 0 <= i < |listing| ==> IsEntryName(listing[i].name)
    requires k < |RegularFiles(listing)|
    ensures IsEntryName(RegularFiles(listing)[k])
  {
    var n := RegularFiles(listing)[k];
    RegularFilesMembers(listing, n);
  }

  /** The task scheduled for input file `name`. */
  function JobFor(name: string): Job {
    Job(InputPath(name), OutputPath(name))
  }

  /** One task per file, in the same order. */
  function ScheduledJobs(files: seq<string>): (jobs: seq<Job>)
    ensures |jobs| == |files|
    ensures forall i :: 0 <= i < |files| ==> jobs[i] == JobFor(files[i])
  {
    if files == [] then [] else [JobFor(files[0])] + ScheduledJobs(files[1..])
  }

  /** Scheduling one more file appends one more task. */
  lemma ScheduledJobsSnoc(files: seq<string>, name: string)
    ensures ScheduledJobs(files + [name]) == ScheduledJobs(files) + [JobFor(name)]
  {
  }

  /** The tasks `parse_documents` schedules for a listing. */
  function Schedule(listing: seq<Entry>): seq<Job> {
    ScheduledJobs(RegularFiles(listing))
  }

  /** FastAPI's task list: tasks are appended and run after the reply. */
  class BackgroundTasks {
    var tasks: seq<Job>

    constructor ()
      ensures tasks == []
    {
      tasks := [];
    }

    method AddTask(job: Job)
      modifies this
      ensures tasks == old(tasks) + [job]
    {
      tasks := tasks + [job];
    }
  }

  /** The endpoint: schedule one task per regular file and acknowledge at once. */
  method ParseDocuments(backgroundTasks: BackgroundTasks, listing: seq<Entry>) returns (ack: string)
    modifies backgroundTasks
    ensures backgroundTasks.tasks == old(backgroundTasks.tasks) + Schedule(listing)
    ensures ack == Ack
  {
    var files := RegularFiles(listing);
    ghost var before := backgroundTasks.tasks;
    for k := 0 to |files|
      invariant backgroundTasks.tasks == before + ScheduledJobs(files[..k])
    {
      var fileName := files[k];
      var job := Job(Join(InputFolder, fileName), Join(OutputFolder, fileName + ParsedSuffix));
      ghost var done := ScheduledJobs(files[..k]);
      backgroundTasks.AddTask(job);
      assert backgroundTasks.tasks == before + (done + [job]);
      assert files[..k + 1] == files[..k] + [fileName];
      ScheduledJobsSnoc(files[..k], fileName);
    }
    assert files[..|files|] == files;
    ack := Ack;
  }

  /** For a listing of entry names, the task for the k-th regular file
      reads `input_data/<name>` and its file is `output_data/<name>_parsed.html`. */
  lemma ScheduledPaths(listing: seq<Entry>, k: nat)
    requires forall i :: 0 <= i < |listing| ==> IsEntryName(listing[i].name)
    requires k < |RegularFiles(listing)|
    ensures var name := RegularFiles(listing)[k];
            var job := Schedule(listing)[k];
            job.inputPath == InputFolder + "/" + name &&
            job.outputPath == OutputFolder + "/" + name + ParsedSuffix &&
            WithHtmlSuffix(job.outputPath) == OutputFolder + "/" + name + ParsedSuffix + HtmlExt
  {
    var name := RegularFiles(listing)[k];
    RegularFilesNames(listing, k);
    OutputPathSpelled(name);
    FinalTargetSpelled(name);
  }

  /** No two scheduled tasks write the same file when the listing's names
      are distinct entry names. */
  lemma DistinctFinalTargets(listing: seq<Entry>)
    requires forall i :: 0 <= i < |listing| ==> IsEntryName(listing[i].name)
    requires forall i, j :: 0 <= i < j < |listing| ==> listing[i].name != listing[j].name
    ensures var jobs := Schedule(listing);
            forall i, j :: 0 <= i < j < |jobs| ==>
              WithHtmlSuffix(jobs[i].outputPath) != WithHtmlSuffix(jobs[j].outputPath)
  {
    var files := RegularFiles(listing);
    var jobs := Schedule(listing);
    RegularFilesDistinct(listing);
    forall i, j | 0 <= i < j < |jobs|
      ensures WithHtmlSuffix(jobs[i].outputPath) != WithHtmlSuffix(jobs[j].outputPath)
    {
      RegularFilesNames(listing, i);
      RegularFilesNames(listing, j);
      if WithHtmlSuffix(OutputPath(files[i])) == WithHtmlSuffix(OutputPath(files[j])) {
        FinalTargetInjective(files[i], files[j]);
      }
    }
  }

  /** The output folder: file paths to their text. */
  class OutputStore {
    var files: map<string, string>

    constructor ()
      ensures files == map[]
    {
      files := map[];
    }

    /** Open in "w" mode and write: any earlier content is replaced. */
    method Save(path: string, content: string)
      modifies this
      ensures files == old(files)[path := content]
    {
      files := files[path := content];
    }
  }

  /** Run one scheduled task; the folder changes only when the task writes. */
  method RunJob(job: Job, svc: Service, folder: OutputStore) returns (r: Run)
    modifies folder
    ensures r == ExpectedRun(job.outputPath, svc)
    ensures r.outcome.Written? ==> folder.files == old(folder.files)[r.outcome.path := r.outcome.content]
    ensures !r.outcome.Written? ==> folder.files == old(folder.files)
  {
    r := CallUpstageApi(job.outputPath, svc);
    if r.outcome.Written? {
      folder.Save(r.outcome.path, r.outcome.content);
    }
  }
}
