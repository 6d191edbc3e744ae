/** Seed randomisation: `ComfyUI.randomise_input_seed` and
    `ComfyUI.randomise_seeds` in comfyui.py.

    In every node that has inputs, each of the keys `seed`, `noise_seed`
    and `rand_seed` that is present with a number (an int, a float, or a
    bool, which Python counts as an int) gets a fresh integer drawn from
    [0, 2^32 - 1]. The generator is not modelled: a draw is any value in
    that range. */
module Seeds {
  import opened Results
  import opened Workflow

  const SeedKeys: seq<string> := ["seed", "noise_seed", "rand_seed"]

  /** The upper bound of `random.randint(0, 2**32 - 1)`. */
  const MaxSeed: int := 0xFFFF_FFFF

  /** Where `inputs[key]` looks: the first entry with that key, or |inputs|
      when `key in inputs` is false. */
  function KeyIndex(inputs: Inputs, key: string): (k: nat)
    ensures k <= |inputs|
    ensures k < |inputs| ==> inputs[k].0 == key
    ensures forall j :: 0 <= j < k ==> inputs[j].0 != key
  {
    if inputs == [] || inputs[0].0 == key then 0 else 1 + KeyIndex(inputs[1..], key)
  }

  /** Two input lists with the same keys in the same order. */
  predicate SameKeys(a: Inputs, b: Inputs) {
    |a| == |b| && forall j :: 0 <= j < |a| ==> a[j].0 == b[j].0
  }

  lemma KeyIndexSameKeys(a: Inputs, b: Inputs, key: string)
    requires SameKeys(a, b)
    ensures KeyIndex(a, key) == KeyIndex(b, key)
  {
  }

  /** Input `j` is where one of the seed keys is looked up, and it holds a
      number. */
  predicate IsSeedSlot(inputs: Inputs, j: int) {
    && 0 <= j < |inputs|
    && inputs[j].0 in SeedKeys
    && KeyIndex(inputs, inputs[j].0) == j
    && IsNumber(inputs[j].1)
  }

  predicate IsSeed(v: Value) {
    v.Int? && 0 <= v.i <= MaxSeed
  }

  /** `inputs'` is `inputs` after the three seed keys are randomised. */
  predicate InputsRandomised(inputs: Inputs, inputs': Inputs) {
    && SameKeys(inputs, inputs')
    && forall j :: 0 <= j < |inputs| ==>
         if IsSeedSlot(inputs, j) then IsSeed(inputs'[j].1) else inputs'[j].1 == inputs[j].1
  }

  /** `wf'` is `wf` after `randomise_seeds`: same nodes, same keys; seed
      slots hold fresh seeds and every other value is as it was. */
  predicate SeedsRandomised(wf: Workflow, wf': Workflow) {
    && SameShape(wf, wf')
    && forall i :: 0 <= i < |wf| && wf[i].1.inputs.Some? ==>
         InputsRandomised(wf[i].1.inputs.value, wf'[i].1.inputs.value)
  }

  /** `randomise_input_seed(key, inputs)`. */
  method RandomiseInputSeed(key: string, inputs: Inputs) returns (inputs': Inputs)
    ensures SameKeys(inputs, inputs')
    ensures var k := KeyIndex(inputs, key);
      forall j :: 0 <= j < |inputs| ==>
        if j == k && IsNumber(inputs[j].1) then IsSeed(inputs'[j].1) else inputs'[j] == inputs[j]
  {
    inputs' := inputs;
    var k := KeyIndex(inputs, key);
    if k < |inputs| && IsNumber(inputs[k].1) {
      var newSeed: int :| 0 <= newSeed <= MaxSeed;
      inputs' := inputs[k := (key, Int(newSeed))];
    }
  }

  /** The three `randomise_input_seed` calls on the inputs of one node. */
  method RandomiseNodeSeeds(inputs: Inputs) returns (inputs': Inputs)
    ensures InputsRandomised(inputs, inputs')
  {
    inputs' := inputs;
    var t := 0;
    while t < |SeedKeys|
      invariant 0 <= t <= |SeedKeys|
      invariant SameKeys(inputs, inputs')
      invariant forall j :: 0 <= j < |inputs| ==>
        if IsSeedSlot(inputs, j) && inputs[j].0 in SeedKeys[..t] then IsSeed(inputs'[j].1)
        else inputs'[j].1 == inputs[j].1
    {
      var key := SeedKeys[t];
      KeyIndexSameKeys(inputs, inputs', key);
      inputs' := RandomiseInputSeed(key, inputs');
      assert SeedKeys[..t + 1] == SeedKeys[..t] + [key];
      t := t + 1;
    }
    assert SeedKeys[..3] == SeedKeys;
  }

  /** `randomise_seeds(workflow)`. */
  method RandomiseSeeds(wf: Workflow) returns (wf': Workflow)
    ensures SeedsRandomised(wf, wf')
  {
    wf' := wf;
    var i := 0;
    while i < |wf|
      invariant 0 <= i <= |wf| && |wf'| == |wf|
      invariant forall k :: i <= k < |wf| ==> wf'[k] == wf[k]
      invariant SameShape(wf, wf')
      invariant forall k :: 0 <= k < i && wf[k].1.inputs.Some? ==>
        InputsRandomised(wf[k].1.inputs.value, wf'[k].1.inputs.value)
    {
      var (id, node) := wf[i];
      if node.inputs.Some? {
        var inputs := RandomiseNodeSeeds(node.inputs.value);
        wf' := wf'[i := (id, node.(inputs := Some(inputs)))];
      }
      i := i + 1;
    }
  }

  /** Only seed slots change, and each into a seed: other keys, non-numeric
      seed values and nodes without inputs keep their values. */
  lemma OnlySeedsChange(wf: Workflow, wf': Workflow, i: int, j: int)
    requires SeedsRandomised(wf, wf') && HasInput(wf, i, j)
    ensures HasInput(wf', i, j)
    ensures ValueAt(wf', i, j) != ValueAt(wf, i, j) ==>
      && wf[i].1.inputs.value[j].0 in SeedKeys
      && IsNumber(ValueAt(wf, i, j))
      && IsSeed(ValueAt(wf', i, j))
  {
  }

  /** A seed slot holding a bool is randomised too, as Python's `bool` is
      an `int`. */
  lemma BoolSeedRandomised(wf: Workflow, wf': Workflow, i: int, j: int)
    requires SeedsRandomised(wf, wf') && HasInput(wf, i, j)
    requires wf[i].1.inputs.value[j].0 == "seed" && ValueAt(wf, i, j).Bool?
    requires KeyIndex(wf[i].1.inputs.value, "seed") == j
    ensures ValueAt(wf', i, j).Int?
  {
    assert IsSeedSlot(wf[i].1.inputs.value, j);
  }
}
