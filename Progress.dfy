/** The completion rule of `ComfyUI.wait_for_prompt_completion` in
    comfyui.py, as a scan over the frames the WebSocket delivers.

    Binary frames are skipped. A text frame whose type is `executing`
    reports progress when its node is set and its prompt id is the awaited
    one, and ends the wait when its node is null and its prompt id is the
    awaited one. Nothing else ends the wait: when no such frame ever comes
    the call never returns. */
module Progress {
  import opened Results
  import opened Workflow

  /** A WebSocket frame: binary (a preview image), or a JSON text message
      with its `type`, `data.node` and `data.prompt_id`. */
  datatype Frame =
    | Binary
    | Text(msgType: string, node: Option<string>, promptId: string)

  /** The line printed for a node starting to execute. */
  datatype Report = Report(nodeId: string, title: string, classType: string)

  predicate IsCompletion(f: Frame, promptId: string) {
    f.Text? && f.msgType == "executing" && f.node.None? && f.promptId == promptId
  }

  predicate IsProgress(f: Frame, promptId: string) {
    f.Text? && f.msgType == "executing" && f.node.Some? && f.promptId == promptId
  }

  /** `workflow.get(node_id, {})`: the node under that id, if any. */
  function Lookup(wf: Workflow, id: string): (r: Option<Node>)
    ensures r.Some? <==> exists i :: 0 <= i < |wf| && wf[i].0 == id
    ensures r.Some? ==> exists i :: 0 <= i < |wf| && wf[i] == (id, r.value)
  {
    if wf == [] then None
    else if wf[0].0 == id then Some(wf[0].1)
    else
      var r := Lookup(wf[1..], id);
      assert forall i :: 0 < i < |wf| ==> wf[i] == wf[1..][i - 1];
      r
  }

  /** The report for a node, with the "Unknown" defaults of `.get`. */
  function Describe(wf: Workflow, id: string): Report {
    match Lookup(wf, id)
    case None => Report(id, "Unknown", "Unknown")
    case Some(n) => Report(id, if n.title.Some? then n.title.value else "Unknown", n.classType)
  }

  /** The index of the first frame that ends the wait, or |frames|. */
  function FirstCompletion(frames: seq<Frame>, promptId: string): (k: nat)
    ensures k <= |frames|
    ensures k < |frames| ==> IsCompletion(frames[k], promptId)
    ensures forall j :: 0 <= j < k ==> !IsCompletion(frames[j], promptId)
  {
    if frames == [] || IsCompletion(frames[0], promptId) then 0
    else 1 + FirstCompletion(frames[1..], promptId)
  }

  /** The progress reports of some frames, in order. */
  function Reports(frames: seq<Frame>, wf: Workflow, promptId: string): seq<Report>
    decreases |frames|
  {
    if frames == [] then []
    else
      var f := frames[|frames| - 1];
      Reports(frames[..|frames| - 1], wf, promptId)
        + (if IsProgress(f, promptId) then [Describe(wf, f.node.value)] else [])
  }

  /** `wait_for_prompt_completion(workflow, prompt_id)` reading from
      `frames`: whether it returns, how many frames it reads and the
      progress it reports. */
  method WaitForPromptCompletion(wf: Workflow, frames: seq<Frame>, promptId: string)
    returns (completed: bool, consumed: nat, reports: seq<Report>)
    ensures completed <==> exists k :: 0 <= k < |frames| && IsCompletion(frames[k], promptId)
    ensures completed ==> consumed == FirstCompletion(frames, promptId) + 1
    ensures !completed ==> consumed == |frames|
    ensures reports == Reports(frames[..consumed], wf, promptId)
  {
    completed, consumed, reports := false, 0, [];
    while consumed < |frames|
      invariant consumed <= |frames|
      invariant forall j :: 0 <= j < consumed ==> !IsCompletion(frames[j], promptId)
      invariant reports == Reports(frames[..consumed], wf, promptId)
    {
      var out := frames[consumed];
      assert frames[..consumed + 1][..consumed] == frames[..consumed];
      consumed := consumed + 1;
      if out.Text? {
        if out.msgType == "executing" {
          if out.node.None? && out.promptId == promptId {
            completed := true;
            return;
          } else if out.promptId == promptId {
            reports := reports + [Describe(wf, out.node.value)];
          }
        }
      }
    }
  }

  /** Frames after the first completion do not matter. */
  lemma {:induction false} LaterFramesIgnored(frames: seq<Frame>, more: seq<Frame>, promptId: string)
    requires FirstCompletion(frames, promptId) < |frames|
    ensures FirstCompletion(frames + more, promptId) == FirstCompletion(frames, promptId)
  {
    if !IsCompletion(frames[0], promptId) {
      assert (frames + more)[1..] == frames[1..] + more;
      LaterFramesIgnored(frames[1..], more, promptId);
    }
  }

  /** Frames that cannot end the wait (binary frames, other message types,
      other prompts, progress of this prompt) only delay it. */
  lemma {:induction false} OtherFramesDelay(noise: seq<Frame>, frames: seq<Frame>, promptId: string)
    requires forall j :: 0 <= j < |noise| ==> !IsCompletion(noise[j], promptId)
    ensures FirstCompletion(noise + frames, promptId) == |noise| + FirstCompletion(frames, promptId)
  {
    if noise == [] {
      assert noise + frames == frames;
    } else {
      assert (noise + frames)[0] == noise[0];
      assert (noise + frames)[1..] == noise[1..] + frames;
      OtherFramesDelay(noise[1..], frames, promptId);
    }
  }

  /** A report comes from a progress frame of the awaited prompt, and names
      that frame's node. */
  lemma {:induction false} ReportsFromProgress(frames: seq<Frame>, wf: Workflow, promptId: string, r: Report)
    requires r in Reports(frames, wf, promptId)
    ensures exists j :: 0 <= j < |frames| && IsProgress(frames[j], promptId) && r == Describe(wf, frames[j].node.value)
    decreases |frames|
  {
    var n := |frames| - 1;
    var front := frames[..n];
    if r in Reports(front, wf, promptId) {
      ReportsFromProgress(front, wf, promptId, r);
      var j :| 0 <= j < |front| && IsProgress(front[j], promptId) && r == Describe(wf, front[j].node.value);
      assert frames[j] == front[j];
    } else {
      assert IsProgress(frames[n], promptId) && r == Describe(wf, frames[n].node.value);
    }
  }
}
