/** Input materialisation: `ComfyUI.handle_inputs` and
    `ComfyUI.is_image_or_video_value` in comfyui.py.

    The pass walks every node that has inputs, in dictionary order, and
    looks at each string value the first time that string is seen anywhere
    in the workflow. A URL is rewritten to `join(input_directory,
    basename(url))`, after downloading it when that file is absent; an image
    or video name is only checked for existence. A later input holding a
    string already seen is skipped, so a URL that appears twice is rewritten
    only where it appears first. */
module Materialize {
  import opened Results
  import opened Strings
  import opened Workflow

  const MediaTypes: seq<string> := [".png", ".jpg", ".jpeg", ".webp", ".mp4", ".webm"]

  predicate AnyEndsWith(s: string, suffixes: seq<string>) {
    exists k :: 0 <= k < |suffixes| && EndsWith(s, suffixes[k])
  }

  /** `is_image_or_video_value`: a string whose lower-cased form ends in one
      of the media types. */
  predicate IsImageOrVideoValue(v: Value) {
    v.Str? && AnyEndsWith(Lower(v.s), MediaTypes)
  }

  /** Letter case does not matter to the media test. */
  lemma ImageOrVideoIgnoresCase(s: string)
    ensures IsImageOrVideoValue(Str(s)) <==> IsImageOrVideoValue(Str(Lower(s)))
  {
    LowerIdempotent(s);
  }

  predicate IsUrl(s: string) {
    StartsWith(s, "http://") || StartsWith(s, "https://")
  }

  /** Where an input file named by `value` lives locally. */
  function LocalPath(inputDirectory: string, value: string): string {
    Join(inputDirectory, Basename(value))
  }

  /** The strings the pass has seen when it reaches input `j` of node `i`. */
  function SeenBefore(wf: Workflow, i: nat, j: nat): set<string>
    requires i < |wf| && wf[i].1.inputs.Some? && j <= |wf[i].1.inputs.value|
  {
    WorkflowStrings(wf[..i]) + InputStrings(wf[i].1.inputs.value[..j])
  }

  /** What the pass leaves in an input holding `v` when `seen` were seen before. */
  function MaterializeValue(v: Value, seen: set<string>, inputDirectory: string): Value {
    if v.Str? && v.s !in seen && IsUrl(v.s) then Str(LocalPath(inputDirectory, v.s)) else v
  }

  function MaterializedNode(wf: Workflow, i: nat, inputDirectory: string): (n: Node)
    requires i < |wf|
  {
    var node := wf[i].1;
    if node.inputs.None? then node
    else
      var inputs := node.inputs.value;
      node.(inputs := Some(seq(|inputs|, j requires 0 <= j < |inputs| =>
        (inputs[j].0, MaterializeValue(inputs[j].1, SeenBefore(wf, i, j), inputDirectory)))))
  }

  /** The workflow after `handle_inputs`. */
  function Materialized(wf: Workflow, inputDirectory: string): (r: Workflow)
    ensures SameShape(wf, r)
  {
    seq(|wf|, i requires 0 <= i < |wf| => (wf[i].0, MaterializedNode(wf, i, inputDirectory)))
  }

  /** The URLs among `seen` whose download succeeds. */
  function Downloaded(seen: set<string>, fetch: string -> bool): set<string> {
    set s | s in seen && IsUrl(s) && fetch(s)
  }

  /** The image of a set of strings under `f`. */
  function Image(xs: set<string>, f: string -> string): set<string> {
    set x | x in xs :: f(x)
  }

  /** The local files the downloads of `urls` create: the download of a URL
      whose file is absent succeeds exactly when `fetch` says so. */
  function Fetched(seen: set<string>, inputDirectory: string, fetch: string -> bool): set<string> {
    Image(Downloaded(seen, fetch), u => LocalPath(inputDirectory, u))
  }

  lemma ImageAdd(xs: set<string>, x: string, f: string -> string)
    ensures Image(xs + {x}, f) == Image(xs, f) + {f(x)}
  {
    forall p | p in Image(xs + {x}, f) ensures p in Image(xs, f) + {f(x)} {
      var u :| u in xs + {x} && p == f(u);
      if u != x {
        assert u in xs;
      }
    }
    assert x in xs + {x};
  }

  lemma DownloadedAdd(seen: set<string>, s: string, fetch: string -> bool)
    ensures Downloaded(seen + {s}, fetch)
         == Downloaded(seen, fetch) + (if IsUrl(s) && fetch(s) then {s} else {})
  {
  }

  lemma FetchedAdd(seen: set<string>, s: string, inputDirectory: string, fetch: string -> bool)
    ensures Fetched(seen + {s}, inputDirectory, fetch)
         == Fetched(seen, inputDirectory, fetch)
            + (if IsUrl(s) && fetch(s) then {LocalPath(inputDirectory, s)} else {})
  {
    DownloadedAdd(seen, s, fetch);
    if IsUrl(s) && fetch(s) {
      ImageAdd(Downloaded(seen, fetch), s, u => LocalPath(inputDirectory, u));
    }
  }

  /** `handle_inputs(workflow)`. `fs` is the set of paths that exist;
      `fetch(url)` says whether `requests.get(url)` and the write succeed.
      A failed download is caught (the file stays absent) and the input is
      rewritten all the same. */
  method HandleInputs(wf: Workflow, inputDirectory: string, fs: set<string>, fetch: string -> bool)
    returns (wf': Workflow, fs': set<string>)
    ensures wf' == Materialized(wf, inputDirectory)
    ensures fs' == fs + Fetched(WorkflowStrings(wf), inputDirectory, fetch)
  {
    var seen: set<string> := {};
    wf', fs' := wf, fs;
    var i := 0;
    while i < |wf|
      invariant 0 <= i <= |wf| && |wf'| == |wf|
      invariant forall k :: 0 <= k < i ==> wf'[k] == (wf[k].0, MaterializedNode(wf, k, inputDirectory))
      invariant forall k :: i <= k < |wf| ==> wf'[k] == wf[k]
      invariant seen == WorkflowStrings(wf[..i])
      invariant fs' == fs + Fetched(seen, inputDirectory, fetch)
    {
      var (id, node) := wf[i];
      WorkflowStringsSnoc(wf, i);
      if node.inputs.Some? {
        var inputs;
        inputs, seen, fs' := HandleNodeInputs(wf, i, inputDirectory, seen, fs, fs', fetch);
        wf' := wf'[i := (id, node.(inputs := Some(inputs)))];
      }
      i := i + 1;
    }
    assert wf[..|wf|] == wf;
  }

  lemma SeenBeforeStep(wf: Workflow, i: nat, j: nat)
    requires i < |wf| && wf[i].1.inputs.Some? && j < |wf[i].1.inputs.value|
    ensures var v := wf[i].1.inputs.value[j].1;
      SeenBefore(wf, i, j + 1) == SeenBefore(wf, i, j) + (if v.Str? then {v.s} else {})
  {
    InputStringsSnoc(wf[i].1.inputs.value, j);
  }

  /** One visited input: the seen set and the existing paths move on together. */
  lemma VisitStep(fs: set<string>, fsCur: set<string>, seen: set<string>, s: string,
                  inputDirectory: string, fetch: string -> bool)
    requires fsCur == fs + Fetched(seen, inputDirectory, fetch)
    ensures var p := LocalPath(inputDirectory, s);
      var fsNext := if IsUrl(s) && p !in fsCur && fetch(s) then fsCur + {p} else fsCur;
      fsNext == fs + Fetched(seen + {s}, inputDirectory, fetch)
  {
    FetchedAdd(seen, s, inputDirectory, fetch);
  }

  /** The inner loop of `handle_inputs` over the inputs of node `i`, with
      the strings `seen` so far and the paths `fs'` that exist so far. */
  method HandleNodeInputs(wf: Workflow, i: nat, inputDirectory: string, seen: set<string>,
                          fs: set<string>, fs': set<string>, fetch: string -> bool)
    returns (inputs: Inputs, seen': set<string>, fs'': set<string>)
    requires i < |wf| && wf[i].1.inputs.Some?
    requires seen == WorkflowStrings(wf[..i])
    requires fs' == fs + Fetched(seen, inputDirectory, fetch)
    ensures inputs == MaterializedNode(wf, i, inputDirectory).inputs.value
    ensures seen' == WorkflowStrings(wf[..i]) + NodeStrings(wf[i].1)
    ensures fs'' == fs + Fetched(seen', inputDirectory, fetch)
  {
    var original := wf[i].1.inputs.value;
    ghost var target := MaterializedNode(wf, i, inputDirectory).inputs.value;
    inputs, seen', fs'' := original, seen, fs';
    var j := 0;
    while j < |inputs|
      invariant 0 <= j <= |inputs| == |original| == |target|
      invariant forall k :: 0 <= k < j ==> inputs[k] == target[k]
      invariant forall k :: j <= k < |inputs| ==> inputs[k] == original[k]
      invariant seen' == SeenBefore(wf, i, j)
      invariant fs'' == fs + Fetched(seen', inputDirectory, fetch)
    {
      var (key, value) := inputs[j];
      SeenBeforeStep(wf, i, j);
      var value' := value;
      if value.Str? && value.s !in seen' {
        VisitStep(fs, fs'', seen', value.s, inputDirectory, fetch);
        if IsUrl(value.s) {
          var filename := LocalPath(inputDirectory, value.s);
          if filename !in fs'' && fetch(value.s) {
            fs'' := fs'' + {filename};
          }
          value' := Str(filename);
        } else if IsImageOrVideoValue(value) {
          // The file is only looked up; its absence is logged, not raised.
        }
        seen' := seen' + {value.s};
      }
      assert target[j] == (key, value');
      inputs := inputs[j := (key, value')];
      j := j + 1;
    }
    InputStringsAll(original);
    assert inputs == target;
  }

  /** The value the pass leaves at an input position. */
  lemma MaterializedAt(wf: Workflow, inputDirectory: string, i: int, j: int)
    requires HasInput(wf, i, j)
    ensures HasInput(Materialized(wf, inputDirectory), i, j)
    ensures ValueAt(Materialized(wf, inputDirectory), i, j)
         == MaterializeValue(ValueAt(wf, i, j), SeenBefore(wf, i, j), inputDirectory)
  {
  }

  /** A string has been seen before position (i, j) exactly when it occurs at
      an earlier position. */
  lemma SeenBeforeIff(wf: Workflow, i: nat, j: nat, s: string)
    requires i < |wf| && wf[i].1.inputs.Some? && j <= |wf[i].1.inputs.value|
    ensures s in SeenBefore(wf, i, j) <==> exists a, b :: StrAt(wf, a, b, s) && Earlier(a, b, i, j)
  {
    var front, inputs := wf[..i], wf[i].1.inputs.value;
    WorkflowStringsIff(front, s);
    if s in SeenBefore(wf, i, j) {
      if s in WorkflowStrings(front) {
        var a, b :| StrAt(front, a, b, s);
        assert StrAt(wf, a, b, s) && Earlier(a, b, i, j);
      } else {
        var k :| 0 <= k < j && inputs[..j][k].1.Str? && inputs[..j][k].1.s == s;
        assert StrAt(wf, i, k, s) && Earlier(i, k, i, j);
      }
    }
    if exists a, b :: StrAt(wf, a, b, s) && Earlier(a, b, i, j) {
      var a, b :| StrAt(wf, a, b, s) && Earlier(a, b, i, j);
      if a < i {
        assert StrAt(front, a, b, s);
      } else {
        assert inputs[..j][b] == inputs[b];
      }
    }
  }

  /** The value the pass leaves at every input position, stated without the
      pass: a URL string that occurs at no earlier position becomes its
      local path, and every other value stays. */
  lemma MaterializedValue(wf: Workflow, inputDirectory: string, i: int, j: int)
    requires HasInput(wf, i, j)
    ensures HasInput(Materialized(wf, inputDirectory), i, j)
    ensures var v := ValueAt(wf, i, j);
      ValueAt(Materialized(wf, inputDirectory), i, j)
        == if v.Str? && IsUrl(v.s) && !(exists a, b :: StrAt(wf, a, b, v.s) && Earlier(a, b, i, j))
           then Str(LocalPath(inputDirectory, v.s))
           else v
  {
    MaterializedAt(wf, inputDirectory, i, j);
    var v := ValueAt(wf, i, j);
    if v.Str? {
      SeenBeforeIff(wf, i, j, v.s);
    }
  }

  /** The first occurrence of a URL is rewritten to its local path, whatever
      became of the download. */
  lemma FirstOccurrenceRewritten(wf: Workflow, inputDirectory: string, i: int, j: int, s: string)
    requires StrAt(wf, i, j, s) && IsUrl(s)
    requires forall a, b :: StrAt(wf, a, b, s) ==> !Earlier(a, b, i, j)
    ensures StrAt(Materialized(wf, inputDirectory), i, j, LocalPath(inputDirectory, s))
  {
    MaterializedAt(wf, inputDirectory, i, j);
    SeenBeforeIff(wf, i, j, s);
  }

  /** An input holding a string that occurs at an earlier position is left
      as it is, even when it is a URL. */
  lemma LaterOccurrenceUntouched(wf: Workflow, inputDirectory: string, i: int, j: int, a: int, b: int, s: string)
    requires StrAt(wf, i, j, s) && StrAt(wf, a, b, s) && Earlier(a, b, i, j)
    ensures StrAt(Materialized(wf, inputDirectory), i, j, s)
  {
    MaterializedAt(wf, inputDirectory, i, j);
    SeenBeforeIff(wf, i, j, s);
  }

  /** Only URL strings change, and each changes into its local path: other
      strings (image and video names among them), non-string values and
      nodes without inputs are left as they are. */
  lemma OnlyUrlsChange(wf: Workflow, inputDirectory: string, i: int, j: int)
    requires HasInput(wf, i, j)
    ensures var v, v' := ValueAt(wf, i, j), ValueAt(Materialized(wf, inputDirectory), i, j);
      v' == v || (v.Str? && IsUrl(v.s) && v' == Str(LocalPath(inputDirectory, v.s)))
  {
    MaterializedAt(wf, inputDirectory, i, j);
  }

  lemma NodesWithoutInputsUntouched(wf: Workflow, inputDirectory: string, i: int)
    requires 0 <= i < |wf| && wf[i].1.inputs.None?
    ensures Materialized(wf, inputDirectory)[i] == wf[i]
  {
  }

  /** No URL occurs at two input positions. */
  ghost predicate NoRepeatedUrls(wf: Workflow) {
    forall a, b, c, d, s :: StrAt(wf, a, b, s) && StrAt(wf, c, d, s) && IsUrl(s) ==> a == c && b == d
  }

  ghost predicate NoUrls(wf: Workflow) {
    forall i, j, s :: StrAt(wf, i, j, s) ==> !IsUrl(s)
  }

  /** Under an absolute input directory a local path is never a URL. */
  lemma LocalPathNotUrl(inputDirectory: string, s: string)
    requires StartsWith(inputDirectory, "/")
    ensures !IsUrl(LocalPath(inputDirectory, s))
  {
    BasenameRelative(s);
    JoinAbsolute(inputDirectory, Basename(s));
    var p := LocalPath(inputDirectory, s);
    assert p[0] == '/';
  }

  /** Without repeated URLs every URL is rewritten, so none remains. */
  lemma NoUrlsRemain(wf: Workflow, inputDirectory: string)
    requires StartsWith(inputDirectory, "/") && NoRepeatedUrls(wf)
    ensures NoUrls(Materialized(wf, inputDirectory))
  {
    var m := Materialized(wf, inputDirectory);
    forall i, j, s | StrAt(m, i, j, s) ensures !IsUrl(s) {
      assert HasInput(wf, i, j);
      OnlyUrlsChange(wf, inputDirectory, i, j);
      var v := ValueAt(wf, i, j);
      if v.Str? && IsUrl(v.s) {
        assert StrAt(wf, i, j, v.s);
        FirstOccurrenceRewritten(wf, inputDirectory, i, j, v.s);
        LocalPathNotUrl(inputDirectory, v.s);
      }
    }
  }

  /** A workflow without URLs passes through unchanged. */
  lemma NoUrlsFixed(wf: Workflow, inputDirectory: string)
    requires NoUrls(wf)
    ensures Materialized(wf, inputDirectory) == wf
  {
    var m := Materialized(wf, inputDirectory);
    forall i | 0 <= i < |wf| ensures m[i] == wf[i] {
      if wf[i].1.inputs.Some? {
        var inputs, inputs' := wf[i].1.inputs.value, m[i].1.inputs.value;
        forall j | 0 <= j < |inputs| ensures inputs'[j] == inputs[j] {
          MaterializedAt(wf, inputDirectory, i, j);
          if inputs[j].1.Str? { assert StrAt(wf, i, j, inputs[j].1.s); }
        }
        assert inputs' == inputs;
      }
    }
  }

  /** Running the pass twice is running it once, provided the input
      directory is absolute and no URL is repeated; a repeated URL survives
      the first pass at its later positions and is rewritten by the second. */
  lemma MaterializeIdempotent(wf: Workflow, inputDirectory: string)
    requires StartsWith(inputDirectory, "/") && NoRepeatedUrls(wf)
    ensures Materialized(Materialized(wf, inputDirectory), inputDirectory) == Materialized(wf, inputDirectory)
  {
    NoUrlsRemain(wf, inputDirectory);
    NoUrlsFixed(Materialized(wf, inputDirectory), inputDirectory);
  }
}
