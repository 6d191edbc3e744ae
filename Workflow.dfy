/** The workflow in the engine's "API" JSON shape: an ordered mapping from
    node id to node, each node with an optional ordered mapping of inputs.
    Python dicts keep insertion order and the adapter's passes depend on it,
    so both mappings are sequences of pairs. */
module Workflow {
  import opened Results
  import opened Strings

  /** A JSON input value. Links to other nodes (`["4", 0]`) are lists. */
  datatype Value =
    | Str(s: string)
    | Int(i: int)
    | Float(r: real)
    | Bool(b: bool)
    | Null
    | List(items: seq<Value>)

  type Inputs = seq<(string, Value)>

  /** A node: `class_type`, the `_meta` title and, when present, `inputs`. */
  datatype Node = Node(classType: string, title: Option<string>, inputs: Option<Inputs>)

  type Workflow = seq<(string, Node)>

  /** Top-level keys that only the editor (GUI) export has. */
  const GuiOnlyKeys: seq<string> := ["last_node_id", "last_link_id", "version"]

  /** `any(key in wf.keys() for key in [...])` in load_workflow. */
  predicate IsGuiExport(wf: Workflow) {
    exists i :: 0 <= i < |wf| && wf[i].0 in GuiOnlyKeys
  }

  /** Python's `isinstance(v, (int, float))`; a bool is an int in Python. */
  predicate IsNumber(v: Value) {
    v.Int? || v.Float? || v.Bool?
  }

  /** Node `i` has inputs and `j` indexes one of them. */
  predicate HasInput(wf: Workflow, i: int, j: int) {
    0 <= i < |wf| && wf[i].1.inputs.Some? && 0 <= j < |wf[i].1.inputs.value|
  }

  function ValueAt(wf: Workflow, i: int, j: int): Value
    requires HasInput(wf, i, j)
  {
    wf[i].1.inputs.value[j].1
  }

  /** Input `j` of node `i` exists and is the string `s`. */
  predicate StrAt(wf: Workflow, i: int, j: int, s: string) {
    HasInput(wf, i, j) && ValueAt(wf, i, j) == Str(s)
  }

  /** Two workflows with the same node ids, class types, titles and input
      keys, in the same order; only input values may differ. */
  predicate SameShape(a: Workflow, b: Workflow) {
    && |a| == |b|
    && forall i :: 0 <= i < |a| ==> SameNodeShape(a[i], b[i])
  }

  predicate SameNodeShape(x: (string, Node), y: (string, Node)) {
    && x.0 == y.0
    && x.1.classType == y.1.classType
    && x.1.title == y.1.title
    && x.1.inputs.Some? == y.1.inputs.Some?
    && (x.1.inputs.Some? ==>
          && |x.1.inputs.value| == |y.1.inputs.value|
          && forall j :: 0 <= j < |x.1.inputs.value| ==> x.1.inputs.value[j].0 == y.1.inputs.value[j].0)
  }

  /** Position (i1, j1) comes before (i2, j2) in the nested iteration order. */
  predicate Earlier(i1: int, j1: int, i2: int, j2: int) {
    i1 < i2 || (i1 == i2 && j1 < j2)
  }

  /** The string values among some inputs. */
  function InputStrings(inputs: Inputs): set<string> {
    set k | 0 <= k < |inputs| && inputs[k].1.Str? :: inputs[k].1.s
  }

  function NodeStrings(n: Node): set<string> {
    if n.inputs.Some? then InputStrings(n.inputs.value) else {}
  }

  /** The string input values of every node that has inputs. */
  function WorkflowStrings(wf: Workflow): set<string>
    decreases |wf|
  {
    if wf == [] then {} else WorkflowStrings(wf[..|wf| - 1]) + NodeStrings(wf[|wf| - 1].1)
  }

  lemma InputStringsSnoc(inputs: Inputs, j: nat)
    requires j < |inputs|
    ensures InputStrings(inputs[..j + 1])
         == InputStrings(inputs[..j]) + (if inputs[j].1.Str? then {inputs[j].1.s} else {})
  {
    var a, b := inputs[..j + 1], inputs[..j];
    forall s | s in InputStrings(a)
      ensures s in InputStrings(b) + (if inputs[j].1.Str? then {inputs[j].1.s} else {})
    {
      var k :| 0 <= k < |a| && a[k].1.Str? && a[k].1.s == s;
      if k < j { assert b[k] == a[k]; }
    }
    forall s | s in InputStrings(b) ensures s in InputStrings(a) {
      var k :| 0 <= k < |b| && b[k].1.Str? && b[k].1.s == s;
      assert a[k] == b[k];
    }
    if inputs[j].1.Str? { assert a[j] == inputs[j]; }
  }

  lemma InputStringsAll(inputs: Inputs)
    ensures InputStrings(inputs[..|inputs|]) == InputStrings(inputs)
  {
    assert inputs[..|inputs|] == inputs;
  }

  lemma WorkflowStringsSnoc(wf: Workflow, i: nat)
    requires i < |wf|
    ensures WorkflowStrings(wf[..i + 1]) == WorkflowStrings(wf[..i]) + NodeStrings(wf[i].1)
  {
    assert wf[..i + 1][..i] == wf[..i];
  }

  /** A string is among the workflow's input strings exactly when some
      input position holds it. */
  lemma {:induction false} WorkflowStringsIff(wf: Workflow, s: string)
    ensures s in WorkflowStrings(wf) <==> exists i, j :: StrAt(wf, i, j, s)
    decreases |wf|
  {
    if wf != [] {
      var n := |wf| - 1;
      var front := wf[..n];
      WorkflowStringsIff(front, s);
      if s in WorkflowStrings(wf) {
        if s in WorkflowStrings(front) {
          var i, j :| StrAt(front, i, j, s);
          assert StrAt(wf, i, j, s);
        } else {
          var j :| 0 <= j < |wf[n].1.inputs.value| && wf[n].1.inputs.value[j].1.Str?
                   && wf[n].1.inputs.value[j].1.s == s;
          assert StrAt(wf, n, j, s);
        }
      }
      if exists i, j :: StrAt(wf, i, j, s) {
        var i, j :| StrAt(wf, i, j, s);
        if i < n {
          assert StrAt(front, i, j, s);
        } else {
          assert s in InputStrings(wf[n].1.inputs.value);
        }
      }
    }
  }
}
