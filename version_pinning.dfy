/** The workflow version-pin check of bin/check_version_pinning.py: walk the workflow directory, keep
    the YAML files, and report every step whose `uses` contains a `@v` tag and contains neither
    `actions/` nor `ministryofjustice` anywhere. */
module VersionPinning {
  import opened Wrappers
  import opened Text
  import opened Seqs

  /** A step of a job, as parsed; `uses` is None when the step has no such key. */
  datatype Step = Step(uses: Option<string>)

  /** A job of a workflow, as parsed; `steps` is None when the job has no such key. */
  datatype Job = Job(steps: Option<seq<Step>>)

  /** A workflow file that parsed to a mapping: the values of its `jobs` mapping in file order (None
      when there is no `jobs` key) and the number of its other top-level keys. */
  datatype Workflow = Workflow(jobs: Option<seq<Job>>, otherKeys: nat)

  /** Python truth of what `yaml.safe_load` gave: None (an empty or unreadable file) and the empty mapping are false. */
  predicate IsTruthy(parsed: Option<Workflow>) {
    parsed.Some? && (parsed.value.jobs.Some? || parsed.value.otherKeys > 0)
  }

  /** `step.get("uses", "")`: the step's `uses` value when it has one, otherwise the empty string. */
  function StepUses(step: Step): (uses: string)
    ensures step.uses.Some? ==> uses == step.uses.value
    ensures step.uses.None? ==> uses == ""
  {
    step.uses.GetOr("")
  }

  /** The `uses` values of some steps, in step order. */
  function StepsUses(steps: seq<Step>): (r: seq<string>)
    ensures |r| == |steps|
    decreases |steps|
  {
    if steps == [] then [] else StepsUses(steps[..|steps| - 1]) + [StepUses(steps[|steps| - 1])]
  }

  /** The `uses` values of some jobs, job after job and within a job step after step. */
  function JobsUses(jobs: seq<Job>): seq<string>
    decreases |jobs|
  {
    if jobs == [] then [] else JobsUses(jobs[..|jobs| - 1]) + StepsUses(jobs[|jobs| - 1].steps.GetOr([]))
  }

  /** Every step of a workflow contributes one `uses` value (possibly ""), in document order. */
  function WorkflowUses(w: Workflow): seq<string> {
    JobsUses(w.jobs.GetOr([]))
  }

  /** A `uses` value the check reports: it contains `@v`, and contains neither `actions/` nor
      `ministryofjustice` anywhere. So a value that starts with either is never reported, nor is a
      third-party one such as `aws-actions/...` that contains `actions/` further in. */
  predicate IsFlagged(uses: string): (flagged: bool)
    ensures flagged ==> Contains(uses, "@v")
    ensures StartsWith(uses, "actions/") || StartsWith(uses, "ministryofjustice") ==> !flagged
  {
    Contains(uses, "@v") && !(Contains(uses, "actions/") || Contains(uses, "ministryofjustice"))
  }

  /** One line of the report, `<file>: <uses>`: the file path and the `uses` value can be read back. */
  function Entry(filePath: string, uses: string): (line: string)
    ensures |line| == |filePath| + 2 + |uses|
    ensures line[..|filePath|] == filePath && line[|filePath| + 2..] == uses
  {
    filePath + ": " + uses
  }

  /** The report lines for some `uses` values of one file, in order. */
  function Entries(filePath: string, uses: seq<string>): (r: seq<string>)
    ensures |r| == |uses|
    ensures forall i :: 0 <= i < |uses| ==> r[i] == Entry(filePath, uses[i])
    decreases |uses|
  {
    if uses == [] then [] else Entries(filePath, uses[..|uses| - 1]) + [Entry(filePath, uses[|uses| - 1])]
  }

  lemma {:induction false} EntriesAppend(filePath: string, a: seq<string>, b: seq<string>)
    ensures Entries(filePath, a + b) == Entries(filePath, a) + Entries(filePath, b)
  {
    // Both sides have the same length and the same line at every index.
    assert |Entries(filePath, a + b)| == |Entries(filePath, a) + Entries(filePath, b)|;
    forall i | 0 <= i < |a + b|
      ensures Entries(filePath, a + b)[i] == (Entries(filePath, a) + Entries(filePath, b))[i]
    {
      if i >= |a| {
        assert (a + b)[i] == b[i - |a|];
      }
    }
  }

  /** The lines `check_uses_field_in_workflow` reports for one parsed file (specification). */
  function FlaggedEntries(filePath: string, w: Workflow): seq<string> {
    Entries(filePath, Filter(WorkflowUses(w), IsFlagged))
  }

  /** A line is reported for a file exactly when some step of it has a flagged `uses`, and then it
      reads `<file>: <uses>`. */
  lemma FlaggedEntriesExactly(filePath: string, w: Workflow, line: string)
    ensures line in FlaggedEntries(filePath, w) <==>
      exists u :: u in WorkflowUses(w) && IsFlagged(u) && line == Entry(filePath, u)
  {
    var flagged := Filter(WorkflowUses(w), IsFlagged);
    if line in FlaggedEntries(filePath, w) {
      var i :| 0 <= i < |flagged| && FlaggedEntries(filePath, w)[i] == line;
      assert flagged[i] in flagged;
    }
    if exists u :: u in WorkflowUses(w) && IsFlagged(u) && line == Entry(filePath, u) {
      var u :| u in WorkflowUses(w) && IsFlagged(u) && line == Entry(filePath, u);
      var i :| 0 <= i < |flagged| && flagged[i] == u;
      assert FlaggedEntries(filePath, w)[i] == line;
    }
  }

  /** A workflow has no more report lines than steps. */
  lemma FlaggedEntriesBounded(filePath: string, w: Workflow)
    ensures |FlaggedEntries(filePath, w)| <= |WorkflowUses(w)|
  {
  }

  /** A step without `uses` reads as "", which is never reported. */
  lemma MissingUsesNotFlagged()
    ensures StepUses(Step(None)) == ""
    ensures !IsFlagged("")
  {
    ContainsInEmpty("@v");
  }

  /** A `@v`-tagged action is reported when neither its name nor its tag uses the letters 'a' and
      'm', so that neither "actions/" nor "ministryofjustice" can occur in it (e.g. "octo-org/deploy@v2"). */
  lemma ThirdPartyTagFlagged(action: string, version: string)
    requires 'a' !in action && 'a' !in version && 'm' !in action && 'm' !in version
    ensures IsFlagged(action + "@v" + version)
  {
    var uses := action + "@v" + version;
    ContainsInfix(action, "@v", version);
    assert 'a' !in "@v" && 'm' !in "@v";
    NotContainsWithout(uses, "actions/", 'a');
    NotContainsWithout(uses, "ministryofjustice", 'm');
  }

  /** GitHub's own actions and the organisation's own are not reported, whatever their tag. */
  lemma OwnActionsNotFlagged(rest: string)
    ensures !IsFlagged("actions/" + rest)
    ensures !IsFlagged("ministryofjustice/" + rest)
  {
    ContainsInfix("", "actions/", rest);
    assert "" + "actions/" + rest == "actions/" + rest;
    ContainsInfix("", "ministryofjustice", "/" + rest);
    assert "" + "ministryofjustice" + ("/" + rest) == "ministryofjustice/" + rest;
  }

  /** The owner test is a substring test anywhere in the value: a third-party action whose name
      merely contains `actions/` (such as `aws-actions/configure-aws-credentials@v4`) or
      `ministryofjustice` is never reported either, whatever its tag. */
  lemma OwnerTextAnywhereNotFlagged(before: string, after: string)
    ensures !IsFlagged(before + "actions/" + after)
    ensures !IsFlagged(before + "ministryofjustice" + after)
  {
    ContainsInfix(before, "actions/", after);
    ContainsInfix(before, "ministryofjustice", after);
  }

  /** What one more step adds to the report of `check_uses_field_in_workflow`. */
  lemma StepStep(filePath: string, done: seq<string>, steps: seq<Step>, j: nat)
    requires j < |steps|
    ensures var before := done + StepsUses(steps[..j]);
      var after := done + StepsUses(steps[..j + 1]);
      var u := StepUses(steps[j]);
      Entries(filePath, Filter(after, IsFlagged))
        == Entries(filePath, Filter(before, IsFlagged)) + (if IsFlagged(u) then [Entry(filePath, u)] else [])
  {
    var u := StepUses(steps[j]);
    assert steps[..j + 1][..j] == steps[..j];
    assert done + StepsUses(steps[..j + 1]) == (done + StepsUses(steps[..j])) + [u];
    FilterAppend(done + StepsUses(steps[..j]), [u], IsFlagged);
    EntriesAppend(filePath, Filter(done + StepsUses(steps[..j]), IsFlagged), Filter([u], IsFlagged));
  }

  /** What one more job adds to the `uses` values. */
  lemma JobStep(jobs: seq<Job>, i: nat)
    requires i < |jobs|
    ensures JobsUses(jobs[..i + 1]) == JobsUses(jobs[..i]) + StepsUses(jobs[i].steps.GetOr([]))
  {
    assert jobs[..i + 1][..i] == jobs[..i];
  }

  /** `check_uses_field_in_workflow`: the report lines for one parsed file, jobs in order and steps in order. */
  method CheckUsesFieldInWorkflow(workflows: Option<Workflow>, filePath: string) returns (results: seq<string>)
    ensures results == if IsTruthy(workflows) then FlaggedEntries(filePath, workflows.value) else []
  {
    results := [];
    if IsTruthy(workflows) {
      var jobs := workflows.value.jobs.GetOr([]);
      for i := 0 to |jobs|
        invariant results == Entries(filePath, Filter(JobsUses(jobs[..i]), IsFlagged))
      {
        var steps := jobs[i].steps.GetOr([]);
        assert JobsUses(jobs[..i]) + StepsUses(steps[..0]) == JobsUses(jobs[..i]);
        for j := 0 to |steps|
          invariant results == Entries(filePath, Filter(JobsUses(jobs[..i]) + StepsUses(steps[..j]), IsFlagged))
        {
          var uses := steps[j].uses.GetOr("");
          StepStep(filePath, JobsUses(jobs[..i]), steps, j);
          if Contains(uses, "@v") && !(Contains(uses, "actions/") || Contains(uses, "ministryofjustice")) {
            results := results + [filePath + ": " + uses];
          }
        }
        assert steps[..|steps|] == steps;
        JobStep(jobs, i);
      }
      assert jobs[..|jobs|] == jobs;
    }
  }

  /** One `(root, dirs, files)` triple of `os.walk`: a directory and the names of the files in it. */
  datatype WalkEntry = WalkEntry(root: string, files: seq<string>)

  /** `file.endswith(".yml") or file.endswith(".yaml")`: the name's last four characters are `.yml`,
      or its last five are `.yaml`. */
  predicate IsWorkflowFileName(file: string): (yaml: bool)
    ensures yaml <==> (|file| >= 4 && file[|file| - 4..] == ".yml") || (|file| >= 5 && file[|file| - 5..] == ".yaml")
    ensures yaml ==> file[|file| - 1] == 'l'
  {
    EndsWith(file, ".yml") || EndsWith(file, ".yaml")
  }

  /** `os.path.join(root, file)` on POSIX. */
  function PathJoin(root: string, file: string): (path: string)
    ensures EndsWith(path, file)
  {
    if StartsWith(file, "/") then file
    else if root == [] || EndsWith(root, "/") then root + file
    else root + "/" + file
  }

  /** The paths `find_workflow_files` yields for some directories, in walk order (specification). */
  function WorkflowFiles(walk: seq<WalkEntry>): seq<string>
    decreases |walk|
  {
    if walk == [] then []
    else WorkflowFiles(walk[..|walk| - 1]) + JoinedPaths(walk[|walk| - 1].root, Filter(walk[|walk| - 1].files, IsWorkflowFileName))
  }

  function JoinedPaths(root: string, files: seq<string>): (r: seq<string>)
    ensures |r| == |files|
    ensures forall i :: 0 <= i < |files| ==> r[i] == PathJoin(root, files[i])
    decreases |files|
  {
    if files == [] then [] else JoinedPaths(root, files[..|files| - 1]) + [PathJoin(root, files[|files| - 1])]
  }

  /** A path ending in a file name ends like that name. */
  lemma EndsWithThrough(path: string, file: string, suffix: string)
    requires EndsWith(path, file) && EndsWith(file, suffix)
    ensures EndsWith(path, suffix)
  {
    assert path[|path| - |suffix|..] == path[|path| - |file|..][|file| - |suffix|..];
  }

  /** Joining a directory to YAML file names gives paths that still end in `.yml` or `.yaml`. */
  lemma JoinedPathsAreYaml(root: string, files: seq<string>)
    requires forall f :: f in files ==> IsWorkflowFileName(f)
    ensures forall p :: p in JoinedPaths(root, files) ==> EndsWith(p, ".yml") || EndsWith(p, ".yaml")
  {
    forall p | p in JoinedPaths(root, files)
      ensures EndsWith(p, ".yml") || EndsWith(p, ".yaml")
    {
      var i :| 0 <= i < |files| && JoinedPaths(root, files)[i] == p;
      assert files[i] in files;
      if EndsWith(files[i], ".yml") {
        EndsWithThrough(p, files[i], ".yml");
      } else {
        EndsWithThrough(p, files[i], ".yaml");
      }
    }
  }

  /** Only `.yml` and `.yaml` files are walked. */
  lemma {:induction false} WorkflowFilesAreYaml(walk: seq<WalkEntry>)
    ensures forall p :: p in WorkflowFiles(walk) ==> EndsWith(p, ".yml") || EndsWith(p, ".yaml")
    decreases |walk|
  {
    if walk != [] {
      var init, last := walk[..|walk| - 1], walk[|walk| - 1];
      WorkflowFilesAreYaml(init);
      JoinedPathsAreYaml(last.root, Filter(last.files, IsWorkflowFileName));
    }
  }

  /** Every YAML file of every walked directory is found. */
  lemma {:induction false} WorkflowFilesComplete(walk: seq<WalkEntry>)
    ensures forall e, f :: e in walk && f in e.files && IsWorkflowFileName(f) ==> PathJoin(e.root, f) in WorkflowFiles(walk)
    decreases |walk|
  {
    if walk != [] {
      var init, last := walk[..|walk| - 1], walk[|walk| - 1];
      WorkflowFilesComplete(init);
      var kept := Filter(last.files, IsWorkflowFileName);
      forall e, f | e in walk && f in e.files && IsWorkflowFileName(f)
        ensures PathJoin(e.root, f) in WorkflowFiles(walk)
      {
        assert walk == init + [last];
        if e !in init {
          assert e == last;
          var i :| 0 <= i < |kept| && kept[i] == f;
          assert JoinedPaths(last.root, kept)[i] == PathJoin(e.root, f);
        }
      }
    }
  }

  /** `find_workflow_files`: the joined paths of the YAML files of every walked directory, in walk order. */
  method FindWorkflowFiles(walk: seq<WalkEntry>) returns (paths: seq<string>)
    ensures paths == WorkflowFiles(walk)
    ensures forall p :: p in paths ==> EndsWith(p, ".yml") || EndsWith(p, ".yaml")
  {
    paths := [];
    for i := 0 to |walk|
      invariant paths == WorkflowFiles(walk[..i])
    {
      var root, files := walk[i].root, walk[i].files;
      var dirPaths: seq<string> := [];
      for j := 0 to |files|
        invariant dirPaths == JoinedPaths(root, Filter(files[..j], IsWorkflowFileName))
      {
        FileStep(root, files, j);
        if IsWorkflowFileName(files[j]) {
          dirPaths := dirPaths + [PathJoin(root, files[j])];
        }
      }
      assert files[..|files|] == files;
      WalkStep(walk, i);
      paths := paths + dirPaths;
    }
    assert walk[..|walk|] == walk;
    WorkflowFilesAreYaml(walk);
  }

  /** What one more directory adds to the walked paths. */
  lemma WalkStep(walk: seq<WalkEntry>, i: nat)
    requires i < |walk|
    ensures WorkflowFiles(walk[..i + 1])
      == WorkflowFiles(walk[..i]) + JoinedPaths(walk[i].root, Filter(walk[i].files, IsWorkflowFileName))
  {
    assert walk[..i + 1][..i] == walk[..i];
  }

  /** What one more file name adds to the paths of a directory. */
  lemma FileStep(root: string, files: seq<string>, j: nat)
    requires j < |files|
    ensures JoinedPaths(root, Filter(files[..j + 1], IsWorkflowFileName))
      == JoinedPaths(root, Filter(files[..j], IsWorkflowFileName))
         + (if IsWorkflowFileName(files[j]) then [PathJoin(root, files[j])] else [])
  {
    assert files[..j + 1] == files[..j] + [files[j]];
    FilterAppend(files[..j], [files[j]], IsWorkflowFileName);
    JoinedPathsAppend(root, Filter(files[..j], IsWorkflowFileName), Filter([files[j]], IsWorkflowFileName));
  }

  lemma {:induction false} JoinedPathsAppend(root: string, a: seq<string>, b: seq<string>)
    ensures JoinedPaths(root, a + b) == JoinedPaths(root, a) + JoinedPaths(root, b)
    decreases |b|
  {
    if b == [] {
      assert a + b == a;
    } else {
      var init, last := b[..|b| - 1], b[|b| - 1];
      assert (a + b)[..|a + b| - 1] == a + init;
      assert (a + b)[|a + b| - 1] == last;
      JoinedPathsAppend(root, a, init);
      AppendAssoc(JoinedPaths(root, a), JoinedPaths(root, init), [PathJoin(root, last)]);
    }
  }

  /** The lines collected over several files, in traversal order, skipping files that parse to a
      false value (specification of the loop of `check_version_pinning`). */
  function AllResults(files: seq<string>, parse: string -> Option<Workflow>): seq<string>
    decreases |files|
  {
    if files == [] then []
    else
      var last := files[|files| - 1];
      AllResults(files[..|files| - 1], parse)
        + (if IsTruthy(parse(last)) then FlaggedEntries(last, parse(last).value) else [])
  }

  /** What one more file adds to the collected lines. */
  lemma AllResultsStep(files: seq<string>, parse: string -> Option<Workflow>, i: nat)
    requires i < |files|
    ensures AllResults(files[..i + 1], parse)
      == AllResults(files[..i], parse)
         + (if IsTruthy(parse(files[i])) then FlaggedEntries(files[i], parse(files[i]).value) else [])
  {
    assert files[..i + 1][..i] == files[..i];
  }

  /** Every collected line comes from a file that parsed to a true value and reports one of its flagged steps. */
  lemma {:induction false} AllResultsSound(files: seq<string>, parse: string -> Option<Workflow>, line: string)
    requires line in AllResults(files, parse)
    ensures exists f :: f in files && IsTruthy(parse(f)) && line in FlaggedEntries(f, parse(f).value)
    decreases |files|
  {
    var init, last := files[..|files| - 1], files[|files| - 1];
    if line in AllResults(init, parse) {
      AllResultsSound(init, parse, line);
      var f :| f in init && IsTruthy(parse(f)) && line in FlaggedEntries(f, parse(f).value);
      assert f in files;
    } else {
      assert files[|files| - 1] in files;
    }
  }

  /** Every flagged step of every file that parsed to a true value is collected. */
  lemma {:induction false} AllResultsComplete(files: seq<string>, parse: string -> Option<Workflow>, f: string, line: string)
    requires f in files && IsTruthy(parse(f)) && line in FlaggedEntries(f, parse(f).value)
    ensures line in AllResults(files, parse)
    decreases |files|
  {
    var init, last := files[..|files| - 1], files[|files| - 1];
    var k :| 0 <= k < |files| && files[k] == f;
    if k < |init| {
      assert init[k] == f;
      AllResultsComplete(init, parse, f, line);
    }
  }

  /** A line is collected exactly when it reports a flagged step of some file that parsed to a true value. */
  lemma AllResultsExactly(files: seq<string>, parse: string -> Option<Workflow>, line: string)
    ensures line in AllResults(files, parse) <==>
      exists f :: f in files && IsTruthy(parse(f)) && line in FlaggedEntries(f, parse(f).value)
  {
    if line in AllResults(files, parse) {
      AllResultsSound(files, parse, line);
    }
    if exists f :: f in files && IsTruthy(parse(f)) && line in FlaggedEntries(f, parse(f).value) {
      var f :| f in files && IsTruthy(parse(f)) && line in FlaggedEntries(f, parse(f).value);
      AllResultsComplete(files, parse, f, line);
    }
  }

  const FoundHeader: string := "Found workflows with pinned versions (@v):"
  const NoneFoundLine: string := "No workflows found with pinned versions (@v)."

  /** `check_version_pinning`: collects the report lines of every workflow file and returns what the
      script prints: a header and the lines, or the one line saying there were none. */
  method CheckVersionPinning(walk: seq<WalkEntry>, parse: string -> Option<Workflow>)
    returns (allResults: seq<string>, printed: seq<string>)
    ensures allResults == AllResults(WorkflowFiles(walk), parse)
    ensures printed == if allResults != [] then [FoundHeader] + allResults else [NoneFoundLine]
  {
    var files := FindWorkflowFiles(walk);
    allResults := [];
    for i := 0 to |files|
      invariant allResults == AllResults(files[..i], parse)
    {
      var filePath := files[i];
      var workflows := parse(filePath);
      AllResultsStep(files, parse, i);
      if IsTruthy(workflows) {
        var results := CheckUsesFieldInWorkflow(workflows, filePath);
        allResults := allResults + results;
      }
    }
    assert files[..|files|] == files;
    if allResults != [] {
      printed := [FoundHeader] + allResults;
    } else {
      printed := [NoneFoundLine];
    }
  }
}
