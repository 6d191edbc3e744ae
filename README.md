# cog-comfyui: a Dafny model of the prediction core

This project models the prediction path of the cog-comfyui predictor. A
prediction takes an engine workflow in the "API" JSON form and up to two
input files. It then does the following, in order:

- clears the working folders;
- stages the input files into the engine's input folder;
- loads the workflow;
- resets the execution cache and/or randomises the seeds, as the flags say;
- runs the workflow;
- synchronises the output folder and lists the files it produced.

Loading the workflow has three parts:

- it refuses the editor's export format and nodes that the helper hooks reject;
- it downloads URL inputs and rewrites them to local paths;
- it works out the set of weight files to download.

The model is made of these modules:

- `Workflow`: the workflow as an ordered list of `(id, node)` pairs. A node
  has a class type, an optional title and optional ordered inputs whose
  values are JSON values.
- `Materialize`: `handle_inputs` and `is_image_or_video_value`. The loop
  is a method over the workflow, proved equal to the function `Materialized`.
  Lemmas about it cover first versus later occurrences, "only URLs change"
  and idempotence.
- `Weights`: `handle_weights`. It is proved to produce a duplicate-free list
  whose set of names is `WeightsNeeded`, which is characterised input by
  input.
- `Loader`: `handle_known_unsupported_nodes` and `load_workflow`, composed
  from the modules above.
- `Seeds`: `randomise_input_seed` and `randomise_seeds`, proved against the
  relation `SeedsRandomised`.
- `Progress`: the completion rule of `wait_for_prompt_completion` over the
  sequence of WebSocket frames.
- `FileTree`: `get_files`, which walks directory listings, skips
  `__MACOSX`, filters by extension and sorts.
- `Staging`: the module-level `copy_files` of predict.py, with its numbered
  collision loop, and `handle_input_file`. Copying below a path that is a
  file raises `NotADirectoryError`, and the copy stops there.
- `Predictor`: `predict`. It is a fixed pipeline of steps, each taken or
  skipped by the flags and by which call raised: staging, `load_workflow`,
  `connect`, `reset_execution_cache`, `run_workflow` or the copy of the
  outputs.

The filesystem is a set of existing paths (`set<string>`). During copies
it is a `CopyState`, which also says which paths are folders and records
the copies made. Directory contents are `Entry` trees given as parameters.

Where the comments and the code differ, the model follows the code:

- `handle_inputs` rewrites a URL only at the first input where that string
  occurs. Every string it has seen before is skipped (comfyui.py:112-113),
  so a later repeat of the same URL stays a URL. The comment at
  comfyui.py:129 says the same URL may occur more than once, and the
  rewrite below it suggests every occurrence was meant to be rewritten.
  `LaterOccurrenceUntouched` states the code's behaviour, and
  `MaterializeIdempotent` therefore needs workflows without repeated URLs.
- `handle_weights` reads `node["inputs"]` for every node, so a node without
  inputs makes it raise. `handle_inputs` only skips such nodes. The model
  returns `MissingInputs` from `HandleWeights`.
- `randomise_input_seed` tests `isinstance(v, (int, float))`. A Python `bool`
  is an `int`, so boolean seed inputs are randomised too
  (`BoolSeedRandomised`).

## Model

| member | source | states |
|---|---|---|
| Materialize.ImageOrVideoIgnoresCase | comfyui.py:96-100 | the media-type test lower-cases the value first, so letter case never changes its answer |
| Materialize.HandleInputs | comfyui.py:106-141 | the pass leaves exactly `Materialized(wf)`, and the existing paths grow by the local files of the URLs whose download succeeds |
| Materialize.HandleNodeInputs | comfyui.py:111-139 | the loop over one node's inputs leaves them as the pass rewrites them, adds the node's strings to `seen_inputs`, and the existing paths are then the starting ones plus the local files of the URLs seen so far whose download succeeds |
| Materialize.MaterializedValue | comfyui.py:109-130 | after the pass, an input holds `join(input_directory, basename(url))` when its value is a URL string that occurs at no earlier position, and its old value otherwise |
| Materialize.SeenBeforeIff | comfyui.py:108-113 | a string counts as seen at (i, j) exactly when it occurs at an earlier position in node-then-input order |
| Materialize.FirstOccurrenceRewritten | comfyui.py:114-130 | the first occurrence of a URL becomes `join(input_directory, basename(url))`, whether or not the download succeeded |
| Materialize.LaterOccurrenceUntouched | comfyui.py:112-113 | a string that already occurred earlier is left as it is, even when it is a URL |
| Materialize.OnlyUrlsChange | comfyui.py:112-139 | an input either keeps its value or is a URL that becomes its local path; image and video names are only checked, never changed |
| Materialize.NodesWithoutInputsUntouched | comfyui.py:110 | a node without `inputs` passes through unchanged |
| Materialize.NoUrlsRemain | comfyui.py:114-130 | with an absolute input directory and no repeated URL, no URL is left after the pass |
| Materialize.NoUrlsFixed | comfyui.py:109-139 | a workflow without URLs is a fixed point of the pass |
| Materialize.MaterializeIdempotent | comfyui.py:106-141 | with an absolute input directory and no repeated URL, running the pass twice equals running it once |
| Weights.EmbeddingIndex | comfyui.py:71-72 | every key maps to an embedding whose name before its first dot is that key, and every embedding's key is present |
| Weights.EmbeddingIndexLastWins | comfyui.py:72 | in the dict comprehension, the last embedding with a given key wins |
| Weights.InputWeightsSpec | comfyui.py:79-87 | a string input asks for the embeddings whose key it contains, when any does; otherwise it asks for itself when it ends in a supported file type, and for nothing else |
| Weights.EmbeddingMatched | comfyui.py:80-85 | every embedding whose key occurs in the input, and that is the last one with that key, is requested |
| Weights.WeightsNeededIff | comfyui.py:66-92 | a name is downloaded exactly when it was passed in, a helper hook added it for some node, or some string input asks for it |
| Weights.HandleWeights | comfyui.py:66-92 | it fails at the first node without inputs; otherwise it returns each needed name exactly once, and the set of names is `WeightsNeeded` |
| Weights.AddInputWeights | comfyui.py:78-87 | the inner loop adds exactly the names that the node's inputs ask for |
| Weights.Deduplicate | comfyui.py:89 | `list(set(...))` holds each name once and exactly the names of the set |
| Loader.FirstUnsupported | comfyui.py:102-104 | the position of the first node a hook rejects: every node before it passes |
| Loader.HandleKnownUnsupportedNodes | comfyui.py:102-104 | it raises exactly when some node is rejected, naming the first such node's class type |
| Loader.MissingIndexSameShape | comfyui.py:217-218 | rewriting inputs does not move the first node without inputs |
| Loader.LoadWorkflow | comfyui.py:203-219 | an editor export fails with a format error and nothing downloaded; a rejected node fails the same way; otherwise inputs are fetched and rewritten, then weights are resolved on the rewritten workflow or the node without inputs is reported |
| Seeds.KeyIndex | comfyui.py:228 | `inputs[key]` looks at the first entry with that key |
| Seeds.RandomiseInputSeed | comfyui.py:227-231 | the keys stay the same; a numeric value (bool included) under the key becomes a seed in 0 .. 2^32-1, and nothing else changes |
| Seeds.RandomiseNodeSeeds | comfyui.py:235-238 | the three seed keys of one node are randomised and every other slot is kept |
| Seeds.RandomiseSeeds | comfyui.py:233-238 | the workflow keeps its shape, and every node's seed slots are randomised |
| Seeds.OnlySeedsChange | comfyui.py:227-238 | a value that changed sat under a seed key, was numeric, and is now a seed |
| Seeds.BoolSeedRandomised | comfyui.py:228 | a boolean `seed` input is replaced by an integer seed |
| Progress.Lookup | comfyui.py:194 | `workflow.get(id)` finds a node exactly when one has that id |
| Progress.FirstCompletion | comfyui.py:189-192 | the first frame that ends the wait: every frame before it does not |
| Progress.WaitForPromptCompletion | comfyui.py:184-201 | the wait ends exactly when an `executing` frame with a null node for this prompt arrives; it consumes the frames up to and including it and reports the progress frames before it |
| Progress.LaterFramesIgnored | comfyui.py:191-192 | frames after the completion do not matter |
| Progress.OtherFramesDelay | comfyui.py:187-201 | binary frames, other message types and other prompts' frames only delay completion |
| Progress.ReportsFromProgress | comfyui.py:193-199 | each report comes from a progress frame of the awaited prompt and describes that frame's node |
| FileTree.RelWalkIff | comfyui.py:260-270 | the walk finds exactly the regular files reachable through directories, and never one under `__MACOSX` |
| FileTree.FilteredIff | comfyui.py:272-273 | the extension filter keeps exactly the files whose last dot-separated part is listed |
| FileTree.FilteredCount | comfyui.py:273 | the filter keeps every copy of a wanted path and drops every copy of an unwanted one |
| FileTree.FilteredPermutation | comfyui.py:272-275 | filtering before or after reordering keeps the same elements |
| FileTree.PathLeqTotal | comfyui.py:275 | the path order compares any two paths |
| FileTree.PathLeqTransitive | comfyui.py:275 | the path order is transitive |
| FileTree.PathLeqAntisymmetric | comfyui.py:275 | the path order is antisymmetric |
| FileTree.Sort | comfyui.py:275 | sorting permutes the files |
| FileTree.SortSorted | comfyui.py:275 | sorting yields a sorted list |
| FileTree.SortedUnique | comfyui.py:275 | two sorted lists with the same elements are equal, so the result does not depend on listing order |
| FileTree.Collect | comfyui.py:260-270 | the loop over one directory's entries collects the walk's files |
| FileTree.ListDirectory | comfyui.py:255-275 | the recursive call returns the walk of the subdirectory, sorted |
| FileTree.GetFiles | comfyui.py:255-275 | the result is the sorted, extension-filtered walk of all the directories |
| Staging.NumberedPathInjective | predict.py:46-51 | distinct counters give distinct candidate paths |
| Staging.LeastFreeExists | predict.py:45-51 | the collision loop always stops, at a number no larger than one more than the number of existing paths |
| Staging.LeastFreeUnique | predict.py:45-51 | the number the loop stops at is unique |
| Staging.NextFreePath | predict.py:45-51 | the loop stops at the smallest n ≥ 1 whose numbered path does not exist |
| Staging.CopyListing | predict.py:36-54 | the loop over the source entries leaves `CopyEntries`: it recurses into folders, copies each file to the least free number, and stops at the first `NotADirectoryError` with the state reached so far |
| Staging.CopyFiles | predict.py:31-54 | `copy_files` leaves `CopyFolder`: the destination is made when missing, then the loop runs when the source exists |
| Staging.CopyEntriesSpec | predict.py:36-54 | from any state, the loop never removes or overwrites a path and never turns a file into a folder; its copies are the source files in listing order, each at a fresh numbered path of its folder, up to where it raised; when nothing raised, every file is copied into a destination that is a folder, and every subfolder's destination exists |
| Staging.CopyFolderSpec | predict.py:31-54 | the destination exists afterwards, and is a folder when it was missing; an absent source copies nothing and raises nothing; otherwise the copies made are the listing's first files, in order, and all of them when nothing raised |
| Staging.CopyEntriesGrow | predict.py:36-54 | the loop keeps every existing path, folder and earlier copy |
| Staging.FileDestinationRaises | predict.py:40-54 | when the destination is a file, the first entry that is not a folder makes the copy raise |
| Staging.FolderOverFileRaises | predict.py:32-54 | a subfolder whose destination path is an existing file is not made a folder, and its first file makes the copy raise |
| Staging.NumberedFolderClash | predict.py:36-54 | copying file `a` and then folder `1` holding file `x` into an empty `/d` puts `a` at `/d/1` and then raises on `/d/1/1` |
| Staging.SafeExtensionTransitive | predict.py:31-54 | "only grows, never overwrites" composes across steps |
| Staging.InputFileActionSpec | predict.py:90-100 | tar and zip are extracted and the four image types copied; every other extension fails with that lower-cased extension |
| Staging.InputFileActionIgnoresCase | predict.py:90 | the extension is lower-cased, so letter case never changes the dispatch |
| Staging.SplitExtLower | predict.py:90 | taking the extension commutes with lower-casing |
| Staging.ImageTargetsDistinct | predict.py:98 | images staged under different indices get different targets |
| Staging.HandleInputFile | predict.py:89-107 | an unsupported type fails with the state unchanged; otherwise the input folder is synchronised into the engine's input folder, and a `NotADirectoryError` from that copy is the result |
| Predictor.OutputDirectories | predict.py:160-165 | the output folder always comes first, and the temporary folder is present exactly when asked for |
| Predictor.StageInputs | predict.py:143-146 | file 1 then file 2 are staged when given; the first one to fail stops staging, its error is returned, and the state is the one its call left |
| Predictor.Execute | predict.py:150-158 | connect; reset the cache when forced or when seeds stay fixed; randomise when asked; run. A failed connect or cache reset stops there with its own error; the workflow reaches `run_workflow` exactly when neither failed, randomised exactly when asked |
| Predictor.Serve | predict.py:148-168 | from `load_workflow` on, the steps taken are the rest of the filtered pipeline; a failed load, connect, cache reset or run returns its error and keeps the staged state; otherwise the outputs are synchronised and the directories to list are returned |
| Predictor.Collect | predict.py:160-165 | after the run, the output folder is copied into the engine's outputs; a `NotADirectoryError` from that copy is the result, and otherwise the directories to list are |
| Predictor.Predict | predict.py:110-169 | the steps taken are the pipeline filtered by the flags and by which call raised; a staging, load, connect, cache-reset or run failure returns its own error, stops every later step and leaves the state after staging; otherwise the outputs are synchronised and the directories to list are returned, unless that copy raises |
| Predictor.RunSegmentSteps | predict.py:150-158 | once staged and loaded, the server steps taken are `connect`, then, unless it raised, the cache reset when due, then, unless that raised, the randomisation when asked and the run |
| Predictor.LoadRaises | predict.py:140-148 | a failed load ends the steps with the load |
| Predictor.ServerRaises | predict.py:140-158 | a failed connect, cache reset or run ends the steps with the server steps reached |
| Predictor.OutputsReached | predict.py:140-165 | after a run, the outputs are synchronised and, unless that raises, collected |
| Predictor.StepsMember | predict.py:140-165 | a step is taken exactly when it is in the pipeline and its conditions hold |
| Predictor.StepsOrder | predict.py:140-165 | taken steps keep their program order |
| Predictor.StepsNoRepeats | predict.py:140-165 | filtering a pipeline without repeats gives a trace without repeats |
| Predictor.StagingOrder | predict.py:140-148 | cleanup comes first; file 1 is staged when given; file 2 is staged when given and file 1 staged, after file 1; both precede loading; the example workflow is loaded exactly when no JSON is given; no step repeats |
| Predictor.FlagDecisions | predict.py:150-158 | once connected, the cache is reset exactly when forced or when seeds stay fixed; seeds are randomised exactly when asked and nothing failed before; reset comes before randomise, both before the run; every run is preceded by one of them |
| Predictor.RaisingStops | predict.py:148-168 | the server is contacted exactly when the load succeeded; the run is reached exactly when connect and any due cache reset succeeded; outputs are synchronised exactly after a run, and collected from the output folder, plus the temporary folder when asked for, exactly when that copy did not raise; connect precedes the run, the run the copy, and the copy the collection |

## Left out

- Server start-up, the `is_server_running` polling, the WebSocket connection, `post_request`, `clear_queue`, `queue_prompt`, `get_history` and `reset_execution_cache`. These are HTTP and WebSocket traffic with the engine. They appear only as named steps. Whether `connect` and `reset_execution_cache` raise are the `World` fields `connectFails` and `resetFails`, and whatever `run_workflow` raises is `runError`.
- `Predictor.Predict`: takes what `load_workflow` returned or raised as `World.loaded` instead of calling `Loader.LoadWorkflow`, whose hooks, downloads and paths are modelled there.
- `apply_helper_methods` and the `custom_node_helpers` modules. They are foreign code found by reflection, so their effects are parameters: `unsupported` for `check_for_unsupported_nodes` and `addWeights` for `add_weights`.
- JSON parsing in `load_workflow`: the workflow arrives parsed.
- Downloads (`requests.get`, `WeightsDownloader.download_weights`) and their logging. A URL download is a `fetch` parameter that says whether it succeeds. Downloaded weights are returned as a list, and their files are not added to the modelled filesystem.
- Every `print`, and the run output printed by `run_workflow`.
- `optimise_images` (output format and quality conversion of the listed files).
- `Predictor.Predict`: returns the directories handed to `get_files`, not the listed files. The output tree is produced by the engine, and listing it is `FileTree.GetFiles`.
- `cleanup`: `clear_queue` and the removal and re-creation of the working folders only appear as the `Cleanup` step, taken not to raise. Its effect on the copy state is not modelled.
- `setup` and `handle_user_weights` (moving user weights into the models folder at start-up), which lie outside the prediction path.
- Tar and zip extraction: the contents of the input folder after extraction are the `staged` listing parameter.
- `Staging.HandleInputFile`: the `staged` listing is only required to hold the image just copied. It is not tied to the earlier contents of the input folder, or to what staging file 1 left there when file 2 is staged.
- The `get_files(INPUT_DIR)` call inside `handle_input_file`. It only prints.
- `run_workflow` as a whole: it is a step in the trace, and its completion rule is `Progress.WaitForPromptCompletion`. When no completion frame arrives, the source waits forever; the model returns with `completed` false.
- `Seeds.RandomiseInputSeed`: the random draw is an unspecified choice in 0 .. 2^32-1. Nothing is said about its distribution.
- `Weights.HandleWeights`: `list(set(...))` has no defined order, so only the set of names and the absence of duplicates are stated.
- `Strings.Lower`: lower-cases ASCII letters only. Python's `str.lower` also folds non-ASCII letters.
- `FileTree.PathLeq`: the order of `pathlib` paths is modelled as character order with `/` ranked below every other character. This matches component-wise comparison on normalised paths without empty components.
- `FileTree.GetFiles`: every root is taken to exist. Symbolic links, special files and a nonexistent directory (which makes `os.listdir` raise) are not modelled.
- `Staging.CopyFiles`: `os.makedirs` of missing ancestors of the top-level destination, copy errors on special files, permissions and file metadata (`copy2`) are not modelled. Only paths, folders and the (source, target) pairs are. The only error modelled is the `NotADirectoryError` of copying or making a folder below a file.
- Duplicate keys: the JSON object model is an ordered list of pairs, and a lookup takes the first entry with a key (`Seeds.KeyIndex`). Parsed JSON has no duplicate keys, so this only matters for inputs the parser cannot produce.
- Aliasing: `handle_inputs` and `randomise_seeds` mutate the dictionary they are given. The model returns the new workflow instead.
- Concurrency (the server thread) and time-outs.
