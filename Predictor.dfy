/** The order of steps in `Predictor.predict` (predict.py) and the
    decisions it takes from its flags.

    A prediction walks a fixed pipeline of steps (`Pipeline`) and takes
    each step or skips it (`Taken`): the flags switch the cache reset and
    the seed randomisation, absent input files skip their staging, and a
    step that raises switches off everything after it. The steps that only
    talk to the server (cleanup, connect, the reset prompt, running the
    workflow) are names in the trace, and whether they raise is part of
    the `World`, as is what `load_workflow` returned; staging input files
    and synchronising folders go through `HandleInputFile` and
    `CopyFiles`, and the seeds through `RandomiseSeeds`. */
module Predictor {
  import opened Results
  import opened Workflow
  import opened FileTree
  import opened Staging
  import opened Seeds
  import opened Loader

  /** The side-effecting steps of a prediction. */
  datatype Step =
    | Cleanup(dirs: seq<string>)        // comfyUI.cleanup(ALL_DIRECTORIES)
    | Stage(index: nat)                 // handle_input_file(input_file<index>, index)
    | Load(example: bool)               // load_workflow, of the example workflow or not
    | Connect
    | ResetCache
    | RandomiseSeeds
    | RunWorkflow
    | SyncOutputs                       // copy_files(OUTPUT_DIR, COMFYUI_OUTPUTS)
    | CollectOutputs(dirs: seq<string>) // get_files(output_directories)

  const AllDirectories: seq<string> := [OutputDir, InputDir, ComfyUITempOutputDir]

  /** `output_directories`: the temporary folder only when asked for. */
  function OutputDirectories(returnTempFiles: bool): (dirs: seq<string>)
    ensures dirs != [] && dirs[0] == OutputDir
    ensures ComfyUITempOutputDir in dirs <==> returnTempFiles
  {
    [OutputDir] + (if returnTempFiles then [ComfyUITempOutputDir] else [])
  }

  /** Every step `predict` can take, in program order. */
  function Pipeline(example: bool, returnTempFiles: bool): seq<Step> {
    [Cleanup(AllDirectories)] + StagingSegment + [Load(example)] + RunSegment + OutputSegment(returnTempFiles)
  }

  const StagingSegment: seq<Step> := [Stage(1), Stage(2)]
  const RunSegment: seq<Step> := [Connect, ResetCache, RandomiseSeeds, RunWorkflow]

  function OutputSegment(returnTempFiles: bool): seq<Step> {
    [SyncOutputs, CollectOutputs(OutputDirectories(returnTempFiles))]
  }

  /** What happened at the steps that can raise. */
  datatype Outcomes = Outcomes(
    file1Given: bool, file1Staged: bool,  // input_file1 given / staged without raising
    file2Given: bool, file2Staged: bool,
    loaded: bool,                         // load_workflow returned
    connected: bool,                      // connect returned
    cacheReset: bool,                     // reset_execution_cache returned, when called
    ran: bool,                            // run_workflow returned
    synced: bool)                         // copy_files(OUTPUT_DIR, COMFYUI_OUTPUTS) returned

  /** `force_reset_cache or not randomise_seeds`. */
  predicate Resetting(randomise: bool, forceResetCache: bool) {
    forceResetCache || !randomise
  }

  /** Every step before `run_workflow` returned. */
  predicate Ready(o: Outcomes, randomise: bool, forceResetCache: bool) {
    && o.file1Staged && o.file2Staged && o.loaded && o.connected
    && (Resetting(randomise, forceResetCache) ==> o.cacheReset)
  }

  /** Whether `predict` takes step `s`: every earlier step that can raise
      returned, and the flags ask for it. */
  predicate Taken(s: Step, o: Outcomes, randomise: bool, forceResetCache: bool) {
    var staged := o.file1Staged && o.file2Staged;
    match s
    case Cleanup(_) => true
    case Stage(i) => (i == 1 && o.file1Given) || (i == 2 && o.file2Given && o.file1Staged)
    case Load(_) => staged
    case Connect => staged && o.loaded
    case ResetCache => staged && o.loaded && o.connected && Resetting(randomise, forceResetCache)
    case RandomiseSeeds => Ready(o, randomise, forceResetCache) && randomise
    case RunWorkflow => Ready(o, randomise, forceResetCache)
    case SyncOutputs => Ready(o, randomise, forceResetCache) && o.ran
    case CollectOutputs(_) => Ready(o, randomise, forceResetCache) && o.ran && o.synced
  }

  /** The steps of `p` that are taken, in order. */
  function Steps(p: seq<Step>, o: Outcomes, randomise: bool, forceResetCache: bool): seq<Step> {
    if p == [] then []
    else (if Taken(p[0], o, randomise, forceResetCache) then [p[0]] else [])
           + Steps(p[1..], o, randomise, forceResetCache)
  }

  /** The staging steps, given which files are present and whether the
      first one staged. */
  function StagingSteps(o: Outcomes): seq<Step> {
    (if o.file1Given then [Stage(1)] else []) + (if o.file2Given && o.file1Staged then [Stage(2)] else [])
  }

  /** The server steps of a prediction whose workflow loaded, up to the
      first one that raises. */
  function ServerSteps(randomise: bool, forceResetCache: bool, connectFails: bool, resetFails: bool): seq<Step> {
    var resetting := Resetting(randomise, forceResetCache);
    var reset := if resetting then [ResetCache] else [];
    var run := if resetting && resetFails then [] else (if randomise then [RandomiseSeeds] else []) + [RunWorkflow];
    [Connect] + (if connectFails then [] else reset + run)
  }

  /** The output steps of a prediction whose run returned. */
  function OutputSteps(returnTempFiles: bool, synced: bool): seq<Step> {
    [SyncOutputs] + (if synced then [CollectOutputs(OutputDirectories(returnTempFiles))] else [])
  }

  /** Step `a` is taken before step `b`. */
  predicate Precedes(trace: seq<Step>, a: Step, b: Step) {
    exists i, j :: 0 <= i < j < |trace| && trace[i] == a && trace[j] == b
  }

  predicate NoRepeats(trace: seq<Step>) {
    forall i, j :: 0 <= i < j < |trace| ==> trace[i] != trace[j]
  }

  /** The copy made by `handle_input_file` for an optional file. */
  ghost function AfterStaging(file: Option<string>, index: nat, staged: seq<Entry>, st: CopyState): Copied {
    if file.Some? && InputFileAction(file.value, index).Success? then
      CopyFolder(InputDir, ComfyUIInputs, Some(staged), st)
    else Copied(st, None)
  }

  /** What `handle_input_file` raises for an optional file, if anything:
      an unsupported type, or a failed synchronisation. */
  ghost function StageError(file: Option<string>, index: nat, staged: seq<Entry>, st: CopyState): Option<Error> {
    if file.None? then None
    else if InputFileAction(file.value, index).Failure? then Some(InputFileAction(file.value, index).error)
    else if AfterStaging(file, index, staged, st).raised.Some? then
      Some(NotADirectory(AfterStaging(file, index, staged, st).raised.value))
    else None
  }

  /** The listing given for an input file holds it when it is an image. */
  predicate Listed(file: Option<string>, index: nat, staged: seq<Entry>) {
    file.Some? ==> ImageListed(file.value, index, staged)
  }

  /** The two `handle_input_file` calls of `predict`; `err` is what the
      first one to raise raises, and file 2 is only staged when file 1 did
      not raise. */
  method StageInputs(file1: Option<string>, file2: Option<string>,
                     staged1: seq<Entry>, staged2: seq<Entry>, st: CopyState)
    returns (err: Option<Error>, steps: seq<Step>, st': CopyState)
    requires Listed(file1, 1, staged1) && Listed(file2, 2, staged2)
    ensures var e1, s1 := StageError(file1, 1, staged1, st), AfterStaging(file1, 1, staged1, st).state;
      && steps == (if file1.Some? then [Stage(1)] else []) + (if file2.Some? && e1.None? then [Stage(2)] else [])
      && (e1.Some? ==> err == e1 && st' == s1)
      && (e1.None? ==> err == StageError(file2, 2, staged2, s1) && st' == AfterStaging(file2, 2, staged2, s1).state)
  {
    err, steps, st' := None, [], st;
    if file1.Some? {
      var a1;
      a1, st' := HandleInputFile(file1.value, 1, staged1, st');
      steps := [Stage(1)];
      if a1.Failure? {
        return Some(a1.error), steps, st';
      }
    }
    if file2.Some? {
      var a2;
      a2, st' := HandleInputFile(file2.value, 2, staged2, st');
      steps := steps + [Stage(2)];
      if a2.Failure? {
        err := Some(a2.error);
      }
    }
  }

  /** `connect`, then `reset_execution_cache` when forced or when seeds
      stay fixed, `randomise_seeds` when asked, and `run_workflow`, up to
      the first that raises. `sent` is the workflow handed to
      `run_workflow`, when that call is reached. */
  method Execute(wf: Workflow, randomise: bool, forceResetCache: bool,
                 connectFails: bool, resetFails: bool, runError: Option<Error>)
    returns (err: Option<Error>, steps: seq<Step>, sent: Option<Workflow>)
    ensures steps == ServerSteps(randomise, forceResetCache, connectFails, resetFails)
    ensures connectFails ==> err == Some(ConnectionFailed)
    ensures !connectFails && Resetting(randomise, forceResetCache) && resetFails ==> err == Some(ExecutionFailed)
    ensures sent.Some? <==> !connectFails && !(Resetting(randomise, forceResetCache) && resetFails)
    ensures sent.Some? ==> err == runError
    ensures sent.Some? && randomise ==> SeedsRandomised(wf, sent.value)
    ensures sent.Some? && !randomise ==> sent.value == wf
  {
    steps := [Connect];
    if connectFails {
      return Some(ConnectionFailed), steps, None;
    }
    if forceResetCache || !randomise {
      steps := steps + [ResetCache];
      if resetFails {
        return Some(ExecutionFailed), steps, None;
      }
    }
    var w := wf;
    if randomise {
      steps := steps + [RandomiseSeeds];
      w := Seeds.RandomiseSeeds(wf);
    }
    steps := steps + [RunWorkflow];
    sent := Some(w);
    err := runError;
  }

  /** What happens outside the model during a prediction: the listings of
      the input directory once each file is in place, what
      `load_workflow` returned or raised, whether `connect` and
      `reset_execution_cache` raise, what `run_workflow` raises, and the
      listing of the output directory after the run (None when absent). */
  datatype World = World(
    staged1: seq<Entry>, staged2: seq<Entry>,
    loaded: Result<Loaded>,
    connectFails: bool, resetFails: bool, runError: Option<Error>,
    outputs: Option<seq<Entry>>)

  /** The copy state once both input files are staged. */
  ghost function StagedState(file1: Option<string>, file2: Option<string>, w: World, st: CopyState): CopyState {
    AfterStaging(file2, 2, w.staged2, AfterStaging(file1, 1, w.staged1, st).state).state
  }

  ghost function OutcomesOf(file1: Option<string>, file2: Option<string>, w: World, st: CopyState): Outcomes {
    var s1 := AfterStaging(file1, 1, w.staged1, st).state;
    Outcomes(file1.Some?, StageError(file1, 1, w.staged1, st).None?,
             file2.Some?, StageError(file2, 2, w.staged2, s1).None?,
             w.loaded.Success?, !w.connectFails, !w.resetFails, w.runError.None?,
             CopyFolder(OutputDir, ComfyUIOutputs, w.outputs, StagedState(file1, file2, w, st)).raised.None?)
  }

  /** `predict(workflow_json, input_file1, input_file2, return_temp_files,
      ..., randomise_seeds, force_reset_cache)`. The result is the list of
      directories handed to `get_files`, and `sent` the workflow handed to
      `run_workflow`. */
  method Predict(workflowJson: string, file1: Option<string>, file2: Option<string>,
                 returnTempFiles: bool, randomise: bool, forceResetCache: bool, w: World, st: CopyState)
    returns (r: Result<seq<string>>, trace: seq<Step>, st': CopyState, sent: Option<Workflow>)
    requires Listed(file1, 1, w.staged1) && Listed(file2, 2, w.staged2)
    ensures var o := OutcomesOf(file1, file2, w, st);
      trace == Steps(Pipeline(workflowJson == "", returnTempFiles), o, randomise, forceResetCache)
    ensures var o := OutcomesOf(file1, file2, w, st);
      && (!o.file1Staged ==>
            r == Failure(StageError(file1, 1, w.staged1, st).value) && st' == AfterStaging(file1, 1, w.staged1, st).state)
      && (o.file1Staged && !o.file2Staged ==>
            r == Failure(StageError(file2, 2, w.staged2, AfterStaging(file1, 1, w.staged1, st).state).value)
            && st' == StagedState(file1, file2, w, st))
    ensures var o := OutcomesOf(file1, file2, w, st);
      o.file1Staged && o.file2Staged && !Ready(o, randomise, forceResetCache) ==>
        && st' == StagedState(file1, file2, w, st)
        && sent.None?
        && r == Failure(if !o.loaded then w.loaded.error else if !o.connected then ConnectionFailed else ExecutionFailed)
    ensures var o := OutcomesOf(file1, file2, w, st);
      Ready(o, randomise, forceResetCache) ==>
        && sent.Some?
        && (randomise ==> SeedsRandomised(w.loaded.value.workflow, sent.value))
        && (!randomise ==> sent.value == w.loaded.value.workflow)
        && (!o.ran ==> r == Failure(w.runError.value) && st' == StagedState(file1, file2, w, st))
    ensures var o := OutcomesOf(file1, file2, w, st);
      Ready(o, randomise, forceResetCache) && o.ran ==>
        var c := CopyFolder(OutputDir, ComfyUIOutputs, w.outputs, StagedState(file1, file2, w, st));
        && st' == c.state
        && r == if c.raised.Some? then Failure(NotADirectory(c.raised.value)) else Success(OutputDirectories(returnTempFiles))
  {
    ghost var o := OutcomesOf(file1, file2, w, st);
    var example := workflowJson == "";
    var err, staging;
    err, staging, st' := StageInputs(file1, file2, w.staged1, w.staged2, st);
    trace := [Cleanup(AllDirectories)] + staging;
    sent := None;
    if err.Some? {
      StagingRaises(example, returnTempFiles, o, randomise, forceResetCache);
      return Failure(err.value), trace, st', sent;
    }
    var serving;
    r, serving, st', sent := Serve(example, returnTempFiles, randomise, forceResetCache, w, st', o);
    trace := trace + serving;
  }

  /** The part of `predict` from `load_workflow` on, once both input
      files are staged with `st` as the result: `load_workflow`'s result,
      the server calls of `Execute` on the loaded workflow, then, once
      `run_workflow` returned, the copy of the output directory into
      ComfyUI's outputs and the directories handed to `get_files`. `o`
      records how each of these calls turns out. */
  method Serve(example: bool, returnTempFiles: bool, randomise: bool, forceResetCache: bool,
               w: World, st: CopyState, ghost o: Outcomes)
    returns (r: Result<seq<string>>, steps: seq<Step>, st': CopyState, sent: Option<Workflow>)
    requires o.file1Staged && o.file2Staged && o.loaded == w.loaded.Success?
    requires o.connected == !w.connectFails && o.cacheReset == !w.resetFails && o.ran == w.runError.None?
    requires o.synced == CopyFolder(OutputDir, ComfyUIOutputs, w.outputs, st).raised.None?
    ensures Steps(Pipeline(example, returnTempFiles), o, randomise, forceResetCache)
         == [Cleanup(AllDirectories)] + StagingSteps(o) + steps
    ensures !Ready(o, randomise, forceResetCache) ==>
      && st' == st
      && sent.None?
      && r == Failure(if !o.loaded then w.loaded.error else if !o.connected then ConnectionFailed else ExecutionFailed)
    ensures Ready(o, randomise, forceResetCache) ==>
      && sent.Some?
      && (randomise ==> SeedsRandomised(w.loaded.value.workflow, sent.value))
      && (!randomise ==> sent.value == w.loaded.value.workflow)
      && (!o.ran ==> r == Failure(w.runError.value) && st' == st)
    ensures Ready(o, randomise, forceResetCache) && o.ran ==>
      var c := CopyFolder(OutputDir, ComfyUIOutputs, w.outputs, st);
      && st' == c.state
      && r == if c.raised.Some? then Failure(NotADirectory(c.raised.value)) else Success(OutputDirectories(returnTempFiles))
  {
    steps, st', sent := [Load(example)], st, None;
    if w.loaded.Failure? {
      LoadRaises(example, returnTempFiles, o, randomise, forceResetCache);
      return Failure(w.loaded.error), steps, st', sent;
    }
    var err, running;
    err, running, sent := Execute(w.loaded.value.workflow, randomise, forceResetCache,
                                  w.connectFails, w.resetFails, w.runError);
    steps := steps + running;
    if err.Some? {
      ServerRaises(example, returnTempFiles, o, randomise, forceResetCache);
      return Failure(err.value), steps, st', sent;
    }
    OutputsReached(example, returnTempFiles, o, randomise, forceResetCache);
    ReadyServerSteps(o, randomise, forceResetCache);
    var collecting;
    r, collecting, st' := Collect(returnTempFiles, w.outputs, st);
    steps := steps + collecting;
  }

  /** The end of `predict` once `run_workflow` returned: the output
      directory, listed as `outputs`, is copied into ComfyUI's outputs,
      and unless that raises, the directories handed to `get_files` are
      the output directory and, when `return_temp_files` is set, ComfyUI's
      temporary output directory. */
  method Collect(returnTempFiles: bool, outputs: Option<seq<Entry>>, st: CopyState)
    returns (r: Result<seq<string>>, steps: seq<Step>, st': CopyState)
    ensures var c := CopyFolder(OutputDir, ComfyUIOutputs, outputs, st);
      && st' == c.state
      && steps == OutputSteps(returnTempFiles, c.raised.None?)
      && r == if c.raised.Some? then Failure(NotADirectory(c.raised.value)) else Success(OutputDirectories(returnTempFiles))
  {
    var outputDirectories := [OutputDir];
    var synced := CopyFiles(OutputDir, ComfyUIOutputs, outputs, st);
    st' := synced.state;
    steps := [SyncOutputs];
    if synced.raised.Some? {
      return Failure(NotADirectory(synced.raised.value)), steps, st';
    }
    if returnTempFiles {
      outputDirectories := outputDirectories + [ComfyUITempOutputDir];
    } else {
      assert outputDirectories == OutputDirectories(returnTempFiles);
    }
    steps := steps + [CollectOutputs(outputDirectories)];
    r := Success(outputDirectories);
  }

  lemma {:induction false} StepsAppend(a: seq<Step>, b: seq<Step>, o: Outcomes, randomise: bool, forceResetCache: bool)
    ensures Steps(a + b, o, randomise, forceResetCache)
         == Steps(a, o, randomise, forceResetCache) + Steps(b, o, randomise, forceResetCache)
  {
    if a != [] {
      assert (a + b)[0] == a[0] && (a + b)[1..] == a[1..] + b;
      StepsAppend(a[1..], b, o, randomise, forceResetCache);
    } else {
      assert a + b == b;
    }
  }

  /** The pipeline taken segment by segment. */
  lemma PipelineSegments(example: bool, returnTempFiles: bool, o: Outcomes, randomise: bool, forceResetCache: bool)
    ensures Steps(Pipeline(example, returnTempFiles), o, randomise, forceResetCache)
      == Steps([Cleanup(AllDirectories)], o, randomise, forceResetCache)
         + Steps(StagingSegment, o, randomise, forceResetCache)
         + Steps([Load(example)], o, randomise, forceResetCache)
         + Steps(RunSegment, o, randomise, forceResetCache)
         + Steps(OutputSegment(returnTempFiles), o, randomise, forceResetCache)
  {
    var s0, s1, s2, s3, s4 := [Cleanup(AllDirectories)], StagingSegment, [Load(example)], RunSegment, OutputSegment(returnTempFiles);
    StepsAppend(s0 + s1 + s2 + s3, s4, o, randomise, forceResetCache);
    StepsAppend(s0 + s1 + s2, s3, o, randomise, forceResetCache);
    StepsAppend(s0 + s1, s2, o, randomise, forceResetCache);
    StepsAppend(s0, s1, o, randomise, forceResetCache);
  }

  /** The pipeline cut at the first step that raises: a staging error
      leaves cleanup and the staging steps, ... */
  lemma StagingRaises(example: bool, returnTempFiles: bool, o: Outcomes, randomise: bool, forceResetCache: bool)
    requires !(o.file1Staged && o.file2Staged)
    ensures Steps(Pipeline(example, returnTempFiles), o, randomise, forceResetCache) == [Cleanup(AllDirectories)] + StagingSteps(o)
  {
    PipelineSegments(example, returnTempFiles, o, randomise, forceResetCache);
    StepsTaken(Cleanup(AllDirectories), o, randomise, forceResetCache);
    StagingSegmentSteps(o, randomise, forceResetCache);
    StepsSkipped(Load(example), o, randomise, forceResetCache);
    RunSegmentSkipped(o, randomise, forceResetCache);
    OutputSegmentSkipped(returnTempFiles, o, randomise, forceResetCache);
  }

  /** ... a load error stops after loading, ... */
  lemma LoadRaises(example: bool, returnTempFiles: bool, o: Outcomes, randomise: bool, forceResetCache: bool)
    requires o.file1Staged && o.file2Staged && !o.loaded
    ensures Steps(Pipeline(example, returnTempFiles), o, randomise, forceResetCache) == [Cleanup(AllDirectories)] + StagingSteps(o) + [Load(example)]
  {
    PipelineSegments(example, returnTempFiles, o, randomise, forceResetCache);
    StepsTaken(Cleanup(AllDirectories), o, randomise, forceResetCache);
    StagingSegmentSteps(o, randomise, forceResetCache);
    StepsTaken(Load(example), o, randomise, forceResetCache);
    RunSegmentSkipped(o, randomise, forceResetCache);
    OutputSegmentSkipped(returnTempFiles, o, randomise, forceResetCache);
  }

  /** ... an error in a server step stops at that step, ... */
  lemma ServerRaises(example: bool, returnTempFiles: bool, o: Outcomes, randomise: bool, forceResetCache: bool)
    requires o.file1Staged && o.file2Staged && o.loaded && !(Ready(o, randomise, forceResetCache) && o.ran)
    ensures Steps(Pipeline(example, returnTempFiles), o, randomise, forceResetCache)
      == [Cleanup(AllDirectories)] + StagingSteps(o) + [Load(example)]
         + ServerSteps(randomise, forceResetCache, !o.connected, !o.cacheReset)
  {
    PipelineSegments(example, returnTempFiles, o, randomise, forceResetCache);
    StepsTaken(Cleanup(AllDirectories), o, randomise, forceResetCache);
    StagingSegmentSteps(o, randomise, forceResetCache);
    StepsTaken(Load(example), o, randomise, forceResetCache);
    RunSegmentTaken(o, randomise, forceResetCache);
    OutputSegmentSkipped(returnTempFiles, o, randomise, forceResetCache);
  }

  /** ... and otherwise the outputs are synchronised, and collected unless
      that raises. */
  lemma OutputsReached(example: bool, returnTempFiles: bool, o: Outcomes, randomise: bool, forceResetCache: bool)
    requires Ready(o, randomise, forceResetCache) && o.ran
    ensures Steps(Pipeline(example, returnTempFiles), o, randomise, forceResetCache)
      == [Cleanup(AllDirectories)] + StagingSteps(o) + [Load(example)]
         + ServerSteps(randomise, forceResetCache, false, false) + OutputSteps(returnTempFiles, o.synced)
  {
    PipelineSegments(example, returnTempFiles, o, randomise, forceResetCache);
    StepsTaken(Cleanup(AllDirectories), o, randomise, forceResetCache);
    StagingSegmentSteps(o, randomise, forceResetCache);
    StepsTaken(Load(example), o, randomise, forceResetCache);
    RunSegmentTaken(o, randomise, forceResetCache);
    ReadyServerSteps(o, randomise, forceResetCache);
    OutputSegmentTaken(returnTempFiles, o, randomise, forceResetCache);
  }

  lemma ReadyServerSteps(o: Outcomes, randomise: bool, forceResetCache: bool)
    requires Ready(o, randomise, forceResetCache)
    ensures ServerSteps(randomise, forceResetCache, !o.connected, !o.cacheReset)
         == ServerSteps(randomise, forceResetCache, false, false)
  {
  }

  lemma StepsTaken(x: Step, o: Outcomes, randomise: bool, forceResetCache: bool)
    requires Taken(x, o, randomise, forceResetCache)
    ensures Steps([x], o, randomise, forceResetCache) == [x]
  {
    StepsOne(x, o, randomise, forceResetCache);
  }

  lemma StepsSkipped(x: Step, o: Outcomes, randomise: bool, forceResetCache: bool)
    requires !Taken(x, o, randomise, forceResetCache)
    ensures Steps([x], o, randomise, forceResetCache) == []
  {
    StepsOne(x, o, randomise, forceResetCache);
  }

  lemma RunSegmentSkipped(o: Outcomes, randomise: bool, forceResetCache: bool)
    requires !(o.file1Staged && o.file2Staged && o.loaded)
    ensures Steps(RunSegment, o, randomise, forceResetCache) == []
  {
    RunSegmentSteps(o, randomise, forceResetCache);
  }

  lemma RunSegmentTaken(o: Outcomes, randomise: bool, forceResetCache: bool)
    requires o.file1Staged && o.file2Staged && o.loaded
    ensures Steps(RunSegment, o, randomise, forceResetCache)
         == ServerSteps(randomise, forceResetCache, !o.connected, !o.cacheReset)
  {
    RunSegmentSteps(o, randomise, forceResetCache);
  }

  lemma OutputSegmentSkipped(returnTempFiles: bool, o: Outcomes, randomise: bool, forceResetCache: bool)
    requires !(Ready(o, randomise, forceResetCache) && o.ran)
    ensures Steps(OutputSegment(returnTempFiles), o, randomise, forceResetCache) == []
  {
    OutputSegmentSteps(returnTempFiles, o, randomise, forceResetCache);
  }

  lemma OutputSegmentTaken(returnTempFiles: bool, o: Outcomes, randomise: bool, forceResetCache: bool)
    requires Ready(o, randomise, forceResetCache) && o.ran
    ensures Steps(OutputSegment(returnTempFiles), o, randomise, forceResetCache) == OutputSteps(returnTempFiles, o.synced)
  {
    OutputSegmentSteps(returnTempFiles, o, randomise, forceResetCache);
  }

  lemma StepsOne(x: Step, o: Outcomes, randomise: bool, forceResetCache: bool)
    ensures Steps([x], o, randomise, forceResetCache) == if Taken(x, o, randomise, forceResetCache) then [x] else []
  {
    assert [x][1..] == [];
  }

  lemma StagingSegmentSteps(o: Outcomes, randomise: bool, forceResetCache: bool)
    ensures Steps(StagingSegment, o, randomise, forceResetCache) == StagingSteps(o)
  {
    StepsAppend([Stage(1)], [Stage(2)], o, randomise, forceResetCache);
    StepsOne(Stage(1), o, randomise, forceResetCache);
    StepsOne(Stage(2), o, randomise, forceResetCache);
    assert StagingSegment == [Stage(1)] + [Stage(2)];
  }

  lemma RunSegmentSteps(o: Outcomes, randomise: bool, forceResetCache: bool)
    ensures Steps(RunSegment, o, randomise, forceResetCache)
      == if !(o.file1Staged && o.file2Staged && o.loaded) then []
         else ServerSteps(randomise, forceResetCache, !o.connected, !o.cacheReset)
  {
    RunSegmentParts(o, randomise, forceResetCache);
    StepsOne(Connect, o, randomise, forceResetCache);
    StepsOne(ResetCache, o, randomise, forceResetCache);
    StepsOne(RandomiseSeeds, o, randomise, forceResetCache);
    StepsOne(RunWorkflow, o, randomise, forceResetCache);
    ServerStepsSum(randomise, forceResetCache, !o.connected, !o.cacheReset);
  }

  lemma RunSegmentParts(o: Outcomes, randomise: bool, forceResetCache: bool)
    ensures Steps(RunSegment, o, randomise, forceResetCache)
      == Steps([Connect], o, randomise, forceResetCache) + Steps([ResetCache], o, randomise, forceResetCache)
         + Steps([RandomiseSeeds], o, randomise, forceResetCache) + Steps([RunWorkflow], o, randomise, forceResetCache)
  {
    var a, b, c, d := [Connect], [ResetCache], [RandomiseSeeds], [RunWorkflow];
    assert RunSegment == a + b + c + d;
    StepsAppend(a + b + c, d, o, randomise, forceResetCache);
    StepsAppend(a + b, c, o, randomise, forceResetCache);
    StepsAppend(a, b, o, randomise, forceResetCache);
  }

  /** The server steps, one optional step at a time. */
  lemma ServerStepsSum(randomise: bool, forceResetCache: bool, connectFails: bool, resetFails: bool)
    ensures var resetting, reached := Resetting(randomise, forceResetCache),
        !connectFails && !(Resetting(randomise, forceResetCache) && resetFails);
      ServerSteps(randomise, forceResetCache, connectFails, resetFails)
        == [Connect] + (if !connectFails && resetting then [ResetCache] else [])
           + (if reached && randomise then [RandomiseSeeds] else []) + (if reached then [RunWorkflow] else [])
  {
  }

  lemma OutputSegmentSteps(returnTempFiles: bool, o: Outcomes, randomise: bool, forceResetCache: bool)
    ensures Steps(OutputSegment(returnTempFiles), o, randomise, forceResetCache)
      == if !(Ready(o, randomise, forceResetCache) && o.ran) then []
         else OutputSteps(returnTempFiles, o.synced)
  {
    var c := CollectOutputs(OutputDirectories(returnTempFiles));
    assert OutputSegment(returnTempFiles) == [SyncOutputs] + [c];
    StepsAppend([SyncOutputs], [c], o, randomise, forceResetCache);
    StepsOne(SyncOutputs, o, randomise, forceResetCache);
    StepsOne(c, o, randomise, forceResetCache);
  }

  lemma {:induction false} StepsMember(p: seq<Step>, o: Outcomes, randomise: bool, forceResetCache: bool, x: Step)
    ensures x in Steps(p, o, randomise, forceResetCache) <==> x in p && Taken(x, o, randomise, forceResetCache)
  {
    if p != [] {
      assert p == [p[0]] + p[1..];
      StepsMember(p[1..], o, randomise, forceResetCache, x);
    }
  }

  lemma PrecedesAcross(a: seq<Step>, b: seq<Step>, x: Step, y: Step)
    requires x in a && y in b
    ensures Precedes(a + b, x, y)
  {
    var i :| 0 <= i < |a| && a[i] == x;
    var j :| 0 <= j < |b| && b[j] == y;
    assert (a + b)[i] == x && (a + b)[|a| + j] == y;
  }

  lemma PrecedesShift(a: seq<Step>, b: seq<Step>, x: Step, y: Step)
    requires Precedes(b, x, y)
    ensures Precedes(a + b, x, y)
  {
    var i, j :| 0 <= i < j < |b| && b[i] == x && b[j] == y;
    assert (a + b)[|a| + i] == x && (a + b)[|a| + j] == y;
  }

  /** Taken steps keep their pipeline order. */
  lemma {:induction false} StepsOrder(p: seq<Step>, o: Outcomes, randomise: bool, forceResetCache: bool, i: nat, j: nat)
    requires i < j < |p|
    requires Taken(p[i], o, randomise, forceResetCache) && Taken(p[j], o, randomise, forceResetCache)
    ensures Precedes(Steps(p, o, randomise, forceResetCache), p[i], p[j])
  {
    var head: seq<Step> := if Taken(p[0], o, randomise, forceResetCache) then [p[0]] else [];
    var rest := Steps(p[1..], o, randomise, forceResetCache);
    assert p[1..][j - 1] == p[j];
    if i == 0 {
      StepsMember(p[1..], o, randomise, forceResetCache, p[j]);
      PrecedesAcross(head, rest, p[0], p[j]);
    } else {
      assert p[1..][i - 1] == p[i];
      StepsOrder(p[1..], o, randomise, forceResetCache, i - 1, j - 1);
      PrecedesShift(head, rest, p[i], p[j]);
    }
  }

  /** A step occurs at most once among the taken steps of a pipeline
      without repeats. */
  lemma {:induction false} StepsNoRepeats(p: seq<Step>, o: Outcomes, randomise: bool, forceResetCache: bool)
    requires NoRepeats(p)
    ensures NoRepeats(Steps(p, o, randomise, forceResetCache))
  {
    if p != [] {
      var tail := p[1..];
      assert NoRepeats(tail) by {
        forall i, j | 0 <= i < j < |tail| ensures tail[i] != tail[j] {
          assert tail[i] == p[i + 1] && tail[j] == p[j + 1];
        }
      }
      StepsNoRepeats(tail, o, randomise, forceResetCache);
      StepsMember(tail, o, randomise, forceResetCache, p[0]);
      assert p[0] !in tail by {
        forall k | 0 <= k < |tail| ensures tail[k] != p[0] {
          assert tail[k] == p[k + 1];
        }
      }
    }
  }

  lemma PipelineNoRepeats(example: bool, returnTempFiles: bool)
    ensures NoRepeats(Pipeline(example, returnTempFiles))
  {
  }

  lemma PipelineAt(example: bool, returnTempFiles: bool)
    ensures var p := Pipeline(example, returnTempFiles);
      && |p| == 10
      && p[0] == Cleanup(AllDirectories) && p[1] == Stage(1) && p[2] == Stage(2) && p[3] == Load(example)
      && p[4] == Connect && p[5] == ResetCache && p[6] == RandomiseSeeds && p[7] == RunWorkflow
      && p[8] == SyncOutputs && p[9] == CollectOutputs(OutputDirectories(returnTempFiles))
  {
  }

  /** Cleanup comes first; file 1 is staged when given and file 2 when
      given and file 1 staged, in that order and both before the workflow
      is loaded; the example workflow is loaded exactly when no workflow
      JSON is given, and no step is taken twice. */
  lemma StagingOrder(example: bool, returnTempFiles: bool, o: Outcomes, randomise: bool, forceResetCache: bool)
    ensures var t := Steps(Pipeline(example, returnTempFiles), o, randomise, forceResetCache);
      && t != [] && t[0] == Cleanup(AllDirectories)
      && NoRepeats(t)
      && (Stage(1) in t <==> o.file1Given)
      && (Stage(2) in t <==> o.file2Given && o.file1Staged)
      && (Stage(1) in t && Stage(2) in t ==> Precedes(t, Stage(1), Stage(2)))
      && (Load(example) in t <==> o.file1Staged && o.file2Staged)
      && Load(!example) !in t
      && (Stage(1) in t && Load(example) in t ==> Precedes(t, Stage(1), Load(example)))
      && (Stage(2) in t && Load(example) in t ==> Precedes(t, Stage(2), Load(example)))
  {
    CleanupFirst(example, returnTempFiles, o, randomise, forceResetCache);
    StagingTaken(example, returnTempFiles, o, randomise, forceResetCache);
    StagingPrecedes(example, returnTempFiles, o, randomise, forceResetCache);
  }

  lemma CleanupFirst(example: bool, returnTempFiles: bool, o: Outcomes, randomise: bool, forceResetCache: bool)
    ensures var t := Steps(Pipeline(example, returnTempFiles), o, randomise, forceResetCache);
      t != [] && t[0] == Cleanup(AllDirectories) && NoRepeats(t)
  {
    var p := Pipeline(example, returnTempFiles);
    PipelineAt(example, returnTempFiles);
    PipelineNoRepeats(example, returnTempFiles);
    StepsNoRepeats(p, o, randomise, forceResetCache);
  }

  lemma StagingTaken(example: bool, returnTempFiles: bool, o: Outcomes, randomise: bool, forceResetCache: bool)
    ensures var t := Steps(Pipeline(example, returnTempFiles), o, randomise, forceResetCache);
      && (Stage(1) in t <==> o.file1Given)
      && (Stage(2) in t <==> o.file2Given && o.file1Staged)
      && (Load(example) in t <==> o.file1Staged && o.file2Staged)
      && Load(!example) !in t
  {
    var p := Pipeline(example, returnTempFiles);
    PipelineAt(example, returnTempFiles);
    StepsMember(p, o, randomise, forceResetCache, Stage(1));
    StepsMember(p, o, randomise, forceResetCache, Stage(2));
    StepsMember(p, o, randomise, forceResetCache, Load(example));
    StepsMember(p, o, randomise, forceResetCache, Load(!example));
  }

  lemma StagingPrecedes(example: bool, returnTempFiles: bool, o: Outcomes, randomise: bool, forceResetCache: bool)
    ensures var t := Steps(Pipeline(example, returnTempFiles), o, randomise, forceResetCache);
      && (o.file1Given && o.file2Given && o.file1Staged ==> Precedes(t, Stage(1), Stage(2)))
      && (o.file1Given && o.file1Staged && o.file2Staged ==> Precedes(t, Stage(1), Load(example)))
      && (o.file2Given && o.file1Staged && o.file2Staged ==> Precedes(t, Stage(2), Load(example)))
  {
    var p := Pipeline(example, returnTempFiles);
    PipelineAt(example, returnTempFiles);
    if o.file1Given && o.file2Given && o.file1Staged {
      StepsOrder(p, o, randomise, forceResetCache, 1, 2);
    }
    if o.file1Staged && o.file2Staged {
      if o.file1Given { StepsOrder(p, o, randomise, forceResetCache, 1, 3); }
      if o.file2Given { StepsOrder(p, o, randomise, forceResetCache, 2, 3); }
    }
  }

  /** The flag decisions: the cache is reset when forced or when seeds
      stay fixed, seeds are randomised exactly when asked, both only once
      the workflow has loaded and the connection is up, and the reset
      before the randomisation and both before the run; so a workflow
      never runs with its fixed seeds on a warm cache. */
  lemma FlagDecisions(example: bool, returnTempFiles: bool, o: Outcomes, randomise: bool, forceResetCache: bool)
    ensures var t := Steps(Pipeline(example, returnTempFiles), o, randomise, forceResetCache);
      var connected := o.file1Staged && o.file2Staged && o.loaded && o.connected;
      && (ResetCache in t <==> connected && (forceResetCache || !randomise))
      && (RandomiseSeeds in t <==> Ready(o, randomise, forceResetCache) && randomise)
      && (ResetCache in t && RandomiseSeeds in t ==> Precedes(t, ResetCache, RandomiseSeeds))
      && (ResetCache in t && RunWorkflow in t ==> Precedes(t, ResetCache, RunWorkflow))
      && (RandomiseSeeds in t ==> Precedes(t, RandomiseSeeds, RunWorkflow))
      && (RunWorkflow in t ==> ResetCache in t || RandomiseSeeds in t)
  {
    FlagsTaken(example, returnTempFiles, o, randomise, forceResetCache);
    FlagsOrdered(example, returnTempFiles, o, randomise, forceResetCache);
  }

  lemma FlagsTaken(example: bool, returnTempFiles: bool, o: Outcomes, randomise: bool, forceResetCache: bool)
    ensures var t := Steps(Pipeline(example, returnTempFiles), o, randomise, forceResetCache);
      var connected := o.file1Staged && o.file2Staged && o.loaded && o.connected;
      && (ResetCache in t <==> connected && (forceResetCache || !randomise))
      && (RandomiseSeeds in t <==> Ready(o, randomise, forceResetCache) && randomise)
      && (RunWorkflow in t <==> Ready(o, randomise, forceResetCache))
  {
    var p := Pipeline(example, returnTempFiles);
    PipelineAt(example, returnTempFiles);
    StepsMember(p, o, randomise, forceResetCache, ResetCache);
    StepsMember(p, o, randomise, forceResetCache, RandomiseSeeds);
    StepsMember(p, o, randomise, forceResetCache, RunWorkflow);
  }

  lemma FlagsOrdered(example: bool, returnTempFiles: bool, o: Outcomes, randomise: bool, forceResetCache: bool)
    ensures var t := Steps(Pipeline(example, returnTempFiles), o, randomise, forceResetCache);
      && (Ready(o, randomise, forceResetCache) && randomise && forceResetCache ==> Precedes(t, ResetCache, RandomiseSeeds))
      && (Ready(o, randomise, forceResetCache) && (forceResetCache || !randomise) ==> Precedes(t, ResetCache, RunWorkflow))
      && (Ready(o, randomise, forceResetCache) && randomise ==> Precedes(t, RandomiseSeeds, RunWorkflow))
  {
    var p := Pipeline(example, returnTempFiles);
    PipelineAt(example, returnTempFiles);
    if Ready(o, randomise, forceResetCache) {
      if forceResetCache || !randomise { StepsOrder(p, o, randomise, forceResetCache, 5, 7); }
      if randomise { StepsOrder(p, o, randomise, forceResetCache, 6, 7); }
      if forceResetCache && randomise { StepsOrder(p, o, randomise, forceResetCache, 5, 6); }
    }
  }

  /** A step that raises ends the prediction: nothing after a failed load
      talks to the server, the workflow runs only when the connection and
      the cache reset it needs went through, nothing after a failed run
      touches the outputs, and the outputs are synchronised after the run
      and then collected from `OUTPUT_DIR`, plus the temporary folder when
      asked for, unless the synchronisation raised. */
  lemma RaisingStops(example: bool, returnTempFiles: bool, o: Outcomes, randomise: bool, forceResetCache: bool)
    ensures var t := Steps(Pipeline(example, returnTempFiles), o, randomise, forceResetCache);
      var staged := o.file1Staged && o.file2Staged;
      && (Connect in t <==> staged && o.loaded)
      && (RunWorkflow in t <==> Ready(o, randomise, forceResetCache))
      && (SyncOutputs in t <==> Ready(o, randomise, forceResetCache) && o.ran)
      && (forall d :: CollectOutputs(d) in t <==>
            Ready(o, randomise, forceResetCache) && o.ran && o.synced && d == OutputDirectories(returnTempFiles))
      && (RunWorkflow in t ==> Precedes(t, Connect, RunWorkflow))
      && (SyncOutputs in t ==> Precedes(t, RunWorkflow, SyncOutputs))
      && (CollectOutputs(OutputDirectories(returnTempFiles)) in t ==>
            Precedes(t, SyncOutputs, CollectOutputs(OutputDirectories(returnTempFiles))))
  {
    ServerStepsTaken(example, returnTempFiles, o, randomise, forceResetCache);
    OutputsCollected(example, returnTempFiles, o, randomise, forceResetCache);
    if Ready(o, randomise, forceResetCache) {
      RunAfterConnect(example, returnTempFiles, o, randomise, forceResetCache);
    }
    if Ready(o, randomise, forceResetCache) && o.ran {
      OutputsAfterRun(example, returnTempFiles, o, randomise, forceResetCache);
    }
  }

  lemma ServerStepsTaken(example: bool, returnTempFiles: bool, o: Outcomes, randomise: bool, forceResetCache: bool)
    ensures var t := Steps(Pipeline(example, returnTempFiles), o, randomise, forceResetCache);
      && (Connect in t <==> o.file1Staged && o.file2Staged && o.loaded)
      && (RunWorkflow in t <==> Ready(o, randomise, forceResetCache))
      && (SyncOutputs in t <==> Ready(o, randomise, forceResetCache) && o.ran)
  {
    var p := Pipeline(example, returnTempFiles);
    PipelineAt(example, returnTempFiles);
    StepsMember(p, o, randomise, forceResetCache, Connect);
    StepsMember(p, o, randomise, forceResetCache, RunWorkflow);
    StepsMember(p, o, randomise, forceResetCache, SyncOutputs);
  }

  lemma OutputsCollected(example: bool, returnTempFiles: bool, o: Outcomes, randomise: bool, forceResetCache: bool)
    ensures var t := Steps(Pipeline(example, returnTempFiles), o, randomise, forceResetCache);
      forall d :: CollectOutputs(d) in t <==>
        Ready(o, randomise, forceResetCache) && o.ran && o.synced && d == OutputDirectories(returnTempFiles)
  {
    var p := Pipeline(example, returnTempFiles);
    var t := Steps(p, o, randomise, forceResetCache);
    PipelineAt(example, returnTempFiles);
    forall d ensures CollectOutputs(d) in t <==>
      Ready(o, randomise, forceResetCache) && o.ran && o.synced && d == OutputDirectories(returnTempFiles)
    {
      StepsMember(p, o, randomise, forceResetCache, CollectOutputs(d));
    }
  }

  lemma RunAfterConnect(example: bool, returnTempFiles: bool, o: Outcomes, randomise: bool, forceResetCache: bool)
    requires Ready(o, randomise, forceResetCache)
    ensures Precedes(Steps(Pipeline(example, returnTempFiles), o, randomise, forceResetCache), Connect, RunWorkflow)
  {
    var p := Pipeline(example, returnTempFiles);
    PipelineAt(example, returnTempFiles);
    StepsOrder(p, o, randomise, forceResetCache, 4, 7);
  }

  lemma OutputsAfterRun(example: bool, returnTempFiles: bool, o: Outcomes, randomise: bool, forceResetCache: bool)
    requires Ready(o, randomise, forceResetCache) && o.ran
    ensures var t := Steps(Pipeline(example, returnTempFiles), o, randomise, forceResetCache);
      && Precedes(t, RunWorkflow, SyncOutputs)
      && (o.synced ==> Precedes(t, SyncOutputs, CollectOutputs(OutputDirectories(returnTempFiles))))
  {
    var p := Pipeline(example, returnTempFiles);
    PipelineAt(example, returnTempFiles);
    StepsOrder(p, o, randomise, forceResetCache, 7, 8);
    if o.synced {
      StepsOrder(p, o, randomise, forceResetCache, 8, 9);
    }
  }
}
