/** Weight resolution: `ComfyUI.handle_weights` in comfyui.py.

    Every node's helper hooks may add names; then every string input asks
    for the embeddings whose key (the text before the first '.') occurs in
    it, or, when no key occurs, for itself when it ends with a weight file
    type. The names are deduplicated and each is downloaded once. */
module Weights {
  import opened Results
  import opened Strings
  import opened Workflow

  /** `{emb.split(".")[0]: emb for emb in embeddings}`: a later embedding
      with the same key replaces an earlier one. */
  function EmbeddingIndex(embeddings: seq<string>): (index: map<string, string>)
    ensures forall k :: k in index ==> index[k] in embeddings && BeforeFirst(index[k], '.') == k
    ensures forall e :: e in embeddings ==> BeforeFirst(e, '.') in index
  {
    if embeddings == [] then map[]
    else
      var e := embeddings[|embeddings| - 1];
      EmbeddingIndex(embeddings[..|embeddings| - 1])[BeforeFirst(e, '.') := e]
  }

  /** The key of an embedding maps to the last embedding carrying that key. */
  lemma {:induction false} EmbeddingIndexLastWins(embeddings: seq<string>, i: nat)
    requires i < |embeddings|
    requires forall j :: i < j < |embeddings| ==> BeforeFirst(embeddings[j], '.') != BeforeFirst(embeddings[i], '.')
    ensures EmbeddingIndex(embeddings)[BeforeFirst(embeddings[i], '.')] == embeddings[i]
  {
    var n := |embeddings| - 1;
    var front := embeddings[..n];
    if i < n {
      assert forall j :: i < j < |front| ==> front[j] == embeddings[j];
      EmbeddingIndexLastWins(front, i);
      assert BeforeFirst(embeddings[n], '.') != BeforeFirst(embeddings[i], '.');
    }
  }

  /** The names asked for by the string input `s`. */
  function InputWeights(s: string, index: map<string, string>, filetypes: seq<string>): set<string> {
    var hits := set k | k in index && Contains(s, k) :: index[k];
    if hits != {} then hits
    else if exists t :: 0 <= t < |filetypes| && EndsWith(s, filetypes[t]) then {s}
    else {}
  }

  /** What an input asks for: the matching embeddings when a key occurs in
      it, and otherwise the input itself exactly when it ends with a
      weight file type. */
  lemma InputWeightsSpec(s: string, embeddings: seq<string>, filetypes: seq<string>)
    ensures var ws := InputWeights(s, EmbeddingIndex(embeddings), filetypes);
      && (forall w :: w in ws ==> w in embeddings || w == s)
      && ((exists e :: e in embeddings && Contains(s, BeforeFirst(e, '.'))) ==>
            forall w :: w in ws ==> w in embeddings && Contains(s, BeforeFirst(w, '.')))
      && ((forall e :: e in embeddings ==> !Contains(s, BeforeFirst(e, '.'))) ==>
            (ws == if exists t :: 0 <= t < |filetypes| && EndsWith(s, filetypes[t]) then {s} else {}))
  {
    var index := EmbeddingIndex(embeddings);
    var hits := set k | k in index && Contains(s, k) :: index[k];
    if e :| e in embeddings && Contains(s, BeforeFirst(e, '.')) {
      assert index[BeforeFirst(e, '.')] in hits;
    }
    if hits != {} {
      var w :| w in hits;
      var k :| k in index && Contains(s, k) && index[k] == w;
      assert w in embeddings && Contains(s, BeforeFirst(w, '.'));
    }
  }

  /** Every embedding whose key occurs in the input, and is the last with
      that key, is asked for. */
  lemma EmbeddingMatched(s: string, embeddings: seq<string>, filetypes: seq<string>, i: nat)
    requires i < |embeddings| && Contains(s, BeforeFirst(embeddings[i], '.'))
    requires forall j :: i < j < |embeddings| ==> BeforeFirst(embeddings[j], '.') != BeforeFirst(embeddings[i], '.')
    ensures embeddings[i] in InputWeights(s, EmbeddingIndex(embeddings), filetypes)
  {
    EmbeddingIndexLastWins(embeddings, i);
    var index := EmbeddingIndex(embeddings);
    var k := BeforeFirst(embeddings[i], '.');
    assert k in index && Contains(s, k);
  }

  function InputsWeights(inputs: Inputs, index: map<string, string>, filetypes: seq<string>): set<string>
    decreases |inputs|
  {
    if inputs == [] then {}
    else
      var v := inputs[|inputs| - 1].1;
      InputsWeights(inputs[..|inputs| - 1], index, filetypes)
        + (if v.Str? then InputWeights(v.s, index, filetypes) else {})
  }

  /** The names a node asks for: what its helper hooks add and what its
      string inputs ask for. */
  function NodeWeights(n: Node, index: map<string, string>, filetypes: seq<string>,
                       addWeights: Node -> seq<string>): set<string>
    requires n.inputs.Some?
  {
    (set w | w in addWeights(n)) + InputsWeights(n.inputs.value, index, filetypes)
  }

  predicate AllHaveInputs(wf: Workflow) {
    forall i :: 0 <= i < |wf| ==> wf[i].1.inputs.Some?
  }

  function WorkflowWeights(wf: Workflow, index: map<string, string>, filetypes: seq<string>,
                           addWeights: Node -> seq<string>): set<string>
    requires AllHaveInputs(wf)
    decreases |wf|
  {
    if wf == [] then {}
    else
      WorkflowWeights(wf[..|wf| - 1], index, filetypes, addWeights)
        + NodeWeights(wf[|wf| - 1].1, index, filetypes, addWeights)
  }

  lemma WorkflowWeightsSnoc(wf: Workflow, i: nat, index: map<string, string>, filetypes: seq<string>,
                            addWeights: Node -> seq<string>)
    requires i < |wf| && AllHaveInputs(wf[..i]) && wf[i].1.inputs.Some?
    ensures AllHaveInputs(wf[..i + 1])
    ensures WorkflowWeights(wf[..i + 1], index, filetypes, addWeights)
         == WorkflowWeights(wf[..i], index, filetypes, addWeights) + NodeWeights(wf[i].1, index, filetypes, addWeights)
  {
    assert wf[..i + 1][..i] == wf[..i];
  }

  /** The set of names `handle_weights` downloads. */
  function WeightsNeeded(wf: Workflow, initial: seq<string>, embeddings: seq<string>,
                         filetypes: seq<string>, addWeights: Node -> seq<string>): set<string>
    requires AllHaveInputs(wf)
  {
    (set w | w in initial) + WorkflowWeights(wf, EmbeddingIndex(embeddings), filetypes, addWeights)
  }

  lemma {:induction false} InputsWeightsIff(inputs: Inputs, index: map<string, string>,
                                            filetypes: seq<string>, w: string)
    ensures w in InputsWeights(inputs, index, filetypes) <==>
      exists j :: 0 <= j < |inputs| && inputs[j].1.Str? && w in InputWeights(inputs[j].1.s, index, filetypes)
    decreases |inputs|
  {
    if inputs != [] {
      var n := |inputs| - 1;
      var front := inputs[..n];
      InputsWeightsIff(front, index, filetypes, w);
      if exists j :: 0 <= j < |front| && front[j].1.Str? && w in InputWeights(front[j].1.s, index, filetypes) {
        var j :| 0 <= j < |front| && front[j].1.Str? && w in InputWeights(front[j].1.s, index, filetypes);
        assert inputs[j] == front[j];
      }
      if exists j :: 0 <= j < |inputs| && inputs[j].1.Str? && w in InputWeights(inputs[j].1.s, index, filetypes) {
        var j :| 0 <= j < |inputs| && inputs[j].1.Str? && w in InputWeights(inputs[j].1.s, index, filetypes);
        if j < n { assert front[j] == inputs[j]; }
      }
    }
  }

  lemma {:induction false} WorkflowWeightsIff(wf: Workflow, index: map<string, string>, filetypes: seq<string>,
                                              addWeights: Node -> seq<string>, w: string)
    requires AllHaveInputs(wf)
    ensures w in WorkflowWeights(wf, index, filetypes, addWeights) <==>
      exists i :: 0 <= i < |wf| && w in NodeWeights(wf[i].1, index, filetypes, addWeights)
    decreases |wf|
  {
    if wf != [] {
      var n := |wf| - 1;
      var front := wf[..n];
      WorkflowWeightsIff(front, index, filetypes, addWeights, w);
      if exists i :: 0 <= i < |front| && w in NodeWeights(front[i].1, index, filetypes, addWeights) {
        var i :| 0 <= i < |front| && w in NodeWeights(front[i].1, index, filetypes, addWeights);
        assert wf[i] == front[i];
      }
      if exists i :: 0 <= i < |wf| && w in NodeWeights(wf[i].1, index, filetypes, addWeights) {
        var i :| 0 <= i < |wf| && w in NodeWeights(wf[i].1, index, filetypes, addWeights);
        if i < n { assert front[i] == wf[i]; }
      }
    }
  }

  /** A name is downloaded exactly when it was passed in, a helper hook of
      some node adds it, or some string input asks for it. */
  lemma WeightsNeededIff(wf: Workflow, initial: seq<string>, embeddings: seq<string>,
                         filetypes: seq<string>, addWeights: Node -> seq<string>, w: string)
    requires AllHaveInputs(wf)
    ensures w in WeightsNeeded(wf, initial, embeddings, filetypes, addWeights) <==>
      || w in initial
      || (exists i :: 0 <= i < |wf| && w in addWeights(wf[i].1))
      || (exists i, j, s :: StrAt(wf, i, j, s) && w in InputWeights(s, EmbeddingIndex(embeddings), filetypes))
  {
    var index := EmbeddingIndex(embeddings);
    WorkflowWeightsIff(wf, index, filetypes, addWeights, w);
    if exists i :: 0 <= i < |wf| && w in NodeWeights(wf[i].1, index, filetypes, addWeights) {
      var i :| 0 <= i < |wf| && w in NodeWeights(wf[i].1, index, filetypes, addWeights);
      var inputs := wf[i].1.inputs.value;
      InputsWeightsIff(inputs, index, filetypes, w);
      if w !in addWeights(wf[i].1) {
        var j :| 0 <= j < |inputs| && inputs[j].1.Str? && w in InputWeights(inputs[j].1.s, index, filetypes);
        assert StrAt(wf, i, j, inputs[j].1.s);
      }
    }
    if exists i :: 0 <= i < |wf| && w in addWeights(wf[i].1) {
      var i :| 0 <= i < |wf| && w in addWeights(wf[i].1);
      assert w in NodeWeights(wf[i].1, index, filetypes, addWeights);
    }
    if exists i, j, s :: StrAt(wf, i, j, s) && w in InputWeights(s, index, filetypes) {
      var i, j, s :| StrAt(wf, i, j, s) && w in InputWeights(s, index, filetypes);
      InputsWeightsIff(wf[i].1.inputs.value, index, filetypes, w);
      assert w in NodeWeights(wf[i].1, index, filetypes, addWeights);
    }
  }

  /** The position of the first node without inputs, or |wf| when all have. */
  function MissingIndex(wf: Workflow): (k: nat)
    ensures k <= |wf|
    ensures forall i :: 0 <= i < k ==> wf[i].1.inputs.Some?
    ensures k < |wf| ==> wf[k].1.inputs.None?
  {
    if wf == [] || wf[0].1.inputs.None? then 0 else 1 + MissingIndex(wf[1..])
  }

  predicate Distinct(names: seq<string>) {
    forall a, b :: 0 <= a < b < |names| ==> names[a] != names[b]
  }

  /** `handle_weights(workflow, weights_to_download)`. The result lists the
      `download_weights` calls in the order made; the KeyError that
      `node["inputs"]` raises on a node without inputs is `MissingInputs`,
      and then nothing is downloaded. */
  method HandleWeights(wf: Workflow, initial: seq<string>, embeddings: seq<string>,
                       filetypes: seq<string>, addWeights: Node -> seq<string>)
    returns (r: Result<seq<string>>)
    ensures MissingIndex(wf) < |wf| ==> r == Failure(MissingInputs(wf[MissingIndex(wf)].0))
    ensures MissingIndex(wf) == |wf| ==>
      && r.Success?
      && Distinct(r.value)
      && (set w | w in r.value) == WeightsNeeded(wf, initial, embeddings, filetypes, addWeights)
  {
    var index := EmbeddingIndex(embeddings);
    var toDownload := set w | w in initial;
    var i := 0;
    while i < |wf|
      invariant 0 <= i <= |wf|
      invariant AllHaveInputs(wf[..i])
      invariant toDownload == (set w | w in initial) + WorkflowWeights(wf[..i], index, filetypes, addWeights)
    {
      var (id, node) := wf[i];
      var added := addWeights(node);
      if node.inputs.None? {
        return Failure(MissingInputs(id));
      }
      toDownload := toDownload + (set w | w in added);
      toDownload := AddInputWeights(node.inputs.value, index, filetypes, toDownload);
      WorkflowWeightsSnoc(wf, i, index, filetypes, addWeights);
      i := i + 1;
    }
    assert wf[..|wf|] == wf;
    var downloads := Deduplicate(toDownload);
    return Success(downloads);
  }

  /** The inner loop of `handle_weights` over the inputs of one node. */
  method AddInputWeights(inputs: Inputs, index: map<string, string>, filetypes: seq<string>,
                         toDownload: set<string>)
    returns (toDownload': set<string>)
    ensures toDownload' == toDownload + InputsWeights(inputs, index, filetypes)
  {
    toDownload' := toDownload;
    var j := 0;
    while j < |inputs|
      invariant 0 <= j <= |inputs|
      invariant toDownload' == toDownload + InputsWeights(inputs[..j], index, filetypes)
    {
      var value := inputs[j].1;
      assert inputs[..j + 1][..j] == inputs[..j];
      if value.Str? {
        var hits := set k | k in index && Contains(value.s, k) :: index[k];
        if hits != {} {
          toDownload' := toDownload' + hits;
        } else if exists t :: 0 <= t < |filetypes| && EndsWith(value.s, filetypes[t]) {
          toDownload' := toDownload' + {value.s};
        }
      }
      j := j + 1;
    }
    assert inputs[..|inputs|] == inputs;
  }

  /** `list(set(weights_to_download))`: each name once, in some order. */
  method Deduplicate(names: set<string>) returns (list: seq<string>)
    ensures Distinct(list)
    ensures (set w | w in list) == names
  {
    list := [];
    var remaining := names;
    while remaining != {}
      invariant Distinct(list)
      invariant (set w | w in list) + remaining == names
      invariant forall w :: w in list ==> w !in remaining
      decreases |remaining|
    {
      var w :| w in remaining;
      list := list + [w];
      remaining := remaining - {w};
    }
  }
}
