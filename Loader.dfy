/** `ComfyUI.load_workflow` in comfyui.py: refuse the editor's export
    format, let the helper hooks refuse known unsupported nodes, fetch and
    rewrite input URLs, then download the weights the workflow needs.
    JSON parsing is not modelled: the workflow arrives parsed. */
module Loader {
  import opened Results
  import opened Workflow
  import opened Materialize
  import opened Weights

  /** The position of the first node the `check_for_unsupported_nodes`
      hooks reject, or |wf| when they reject none. */
  function FirstUnsupported(wf: Workflow, unsupported: Node -> bool): (k: nat)
    ensures k <= |wf|
    ensures k < |wf| ==> unsupported(wf[k].1)
    ensures forall i :: 0 <= i < k ==> !unsupported(wf[i].1)
  {
    if wf == [] || unsupported(wf[0].1) then 0 else 1 + FirstUnsupported(wf[1..], unsupported)
  }

  /** `handle_known_unsupported_nodes(workflow)`: the class type of the
      node whose check raises, if any. */
  method HandleKnownUnsupportedNodes(wf: Workflow, unsupported: Node -> bool)
    returns (r: Option<string>)
    ensures r.Some? <==> exists i :: 0 <= i < |wf| && unsupported(wf[i].1)
    ensures r.Some? ==> r.value == wf[FirstUnsupported(wf, unsupported)].1.classType
  {
    var i := 0;
    while i < |wf|
      invariant 0 <= i <= |wf|
      invariant forall k :: 0 <= k < i ==> !unsupported(wf[k].1)
    {
      if unsupported(wf[i].1) {
        assert FirstUnsupported(wf, unsupported) == i;
        return Some(wf[i].1.classType);
      }
      i := i + 1;
    }
    return None;
  }

  /** Rewriting input values keeps the node without inputs where it was. */
  lemma {:induction false} MissingIndexSameShape(a: Workflow, b: Workflow)
    requires SameShape(a, b)
    ensures MissingIndex(a) == MissingIndex(b)
  {
    if a != [] && a[0].1.inputs.Some? {
      assert SameNodeShape(a[0], b[0]);
      assert forall i :: 0 <= i < |a| - 1 ==> a[1..][i] == a[i + 1] && b[1..][i] == b[i + 1];
      MissingIndexSameShape(a[1..], b[1..]);
    }
  }

  /** A loaded workflow and the weights downloaded for it. */
  datatype Loaded = Loaded(workflow: Workflow, weights: seq<string>)

  /** `load_workflow(workflow)` with the helper hooks `unsupported` and
      `addWeights`, the downloader's embeddings and supported file types,
      and `fetch` standing for the HTTP downloads of input URLs. */
  method LoadWorkflow(wf: Workflow, inputDirectory: string, fs: set<string>, fetch: string -> bool,
                      unsupported: Node -> bool, embeddings: seq<string>, filetypes: seq<string>,
                      addWeights: Node -> seq<string>)
    returns (r: Result<Loaded>, fs': set<string>)
    ensures IsGuiExport(wf) ==> r == Failure(FormatError) && fs' == fs
    ensures !IsGuiExport(wf) && FirstUnsupported(wf, unsupported) < |wf| ==>
      && r == Failure(UnsupportedNode(wf[FirstUnsupported(wf, unsupported)].1.classType))
      && fs' == fs
    ensures !IsGuiExport(wf) && FirstUnsupported(wf, unsupported) == |wf| ==>
      && fs' == fs + Fetched(WorkflowStrings(wf), inputDirectory, fetch)
      && (MissingIndex(wf) < |wf| ==> r == Failure(MissingInputs(wf[MissingIndex(wf)].0)))
      && (MissingIndex(wf) == |wf| ==>
            var m := Materialized(wf, inputDirectory);
            && r.Success?
            && r.value.workflow == m
            && Distinct(r.value.weights)
            && (set w | w in r.value.weights) == WeightsNeeded(m, [], embeddings, filetypes, addWeights))
  {
    fs' := fs;
    if exists i :: 0 <= i < |wf| && wf[i].0 in GuiOnlyKeys {
      return Failure(FormatError), fs';
    }
    var bad := HandleKnownUnsupportedNodes(wf, unsupported);
    if bad.Some? {
      return Failure(UnsupportedNode(bad.value)), fs';
    }
    var m;
    m, fs' := HandleInputs(wf, inputDirectory, fs, fetch);
    MissingIndexSameShape(wf, m);
    var weights := HandleWeights(m, [], embeddings, filetypes, addWeights);
    if weights.Failure? {
      return Failure(weights.error), fs';
    }
    r := Success(Loaded(m, weights.value));
  }
}
