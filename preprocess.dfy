/**
 * The preprocess stage for one (pod, variable) pair (`data_preprocess`): the
 * pod's preprocessor transforms the variable's data; a failure does not
 * propagate, it deactivates every data key of the variable that is still active.
 */
module Preprocess {
  import opened Objects

  /** What the pod's preprocessor does with a variable: it completes or raises. */
  datatype Outcome = Pass | Fail(error: Error)

  /** A data key's state after the failure handler's visit: an active key is deactivated with `e`. */
  function Discarded(s: KeyState, e: Error): (r: KeyState)
    ensures r.status != Active
    ensures s.status == Active ==> r.status == Failed && r.failure == Some(e) && r.localData == s.localData
    ensures s.status != Active ==> r == s
  {
    if s.status == Active then s.(status := Failed, failure := Some(e)) else s
  }

  /**
   * The handler's loop `for d_key in var.iter_data_keys(status=ACTIVE)`: every
   * key of `keys` that is active when the loop reaches it is deactivated with `e`.
   */
  method DiscardKeys(v: Variable, keys: seq<DataKey>, e: Error)
    modifies set k | k in keys
    ensures forall k :: k in keys ==> KeyStateOf(k) == Discarded(old(KeyStates(keys))[k], e)
  {
    ghost var orig := KeyStates(keys);
    var i := 0;
    while i < |keys|
      invariant 0 <= i <= |keys|
      invariant forall k :: k in keys ==>
        KeyStateOf(k) == if k in keys[..i] then Discarded(orig[k], e) else orig[k]
    {
      var k := keys[i];
      assert keys[..i + 1] == keys[..i] + [k];
      if k.status == Active {
        v.DeactivateDataKey(k, e);
      }
      i := i + 1;
    }
    assert keys[..i] == keys;
  }

  /**
   * The preprocess stage for variable `v` of pod `pod`. When the preprocessor
   * completes, the stage becomes PREPROCESSED and no key changes; when it
   * raises, the stage is kept, every key active before is deactivated with the
   * exception, and nothing is raised to the caller.
   */
  method DataPreprocess(pod: Pod, v: Variable, process: (Pod, Variable) -> Outcome)
    modifies v`stage, set k | k in v.data
    ensures process(pod, v).Pass? ==>
      v.stage == Preprocessed && forall k :: k in v.data ==> KeyStateOf(k) == old(KeyStateOf(k))
    ensures process(pod, v).Fail? ==>
      v.stage == old(v.stage)
      && forall k :: k in v.data ==> KeyStateOf(k) == Discarded(old(KeyStates(v.data))[k], process(pod, v).error)
  {
    match process(pod, v)
    case Pass =>
      v.stage := Preprocessed;
    case Fail(e) =>
      DiscardKeys(v, v.data, e);
  }
}
