/**
 * The end of the data request (`data_teardown`): every variable of every pod
 * that is still active is marked as having succeeded; failed and unused
 * variables keep their status.
 */
module Teardown {
  import opened Objects

  /** A variable's status after teardown. */
  function Settled(s: ObjectStatus): (r: ObjectStatus)
    ensures r != Active
    ensures s == Active <==> r == Succeeded && r != s
    ensures s != Active ==> r == s
  {
    if s == Active then Succeeded else s
  }

  /**
   * The teardown loop over `pods` and their variables. It returns the pods it
   * was given; afterwards every variable's status is the settled form of its
   * status before, and nothing else changes.
   */
  method DataTeardown(pods: seq<Pod>) returns (r: seq<Pod>)
    modifies set x | x in AllVars(pods) :: x`status
    ensures r == pods
    ensures forall x :: x in AllVars(pods) ==> x.status == Settled(old(x.status))
  {
    ghost var all := AllVars(pods);
    ghost var orig := map x | x in all :: x.status;
    ghost var done: set<Variable> := {};
    var i := 0;
    while i < |pods|
      invariant 0 <= i <= |pods|
      invariant done <= all
      invariant forall p, x :: p in pods[..i] && x in p.vars ==> x in done
      invariant forall x :: x in all ==> x.status == if x in done then Settled(orig[x]) else orig[x]
    {
      var p := pods[i];
      var j := 0;
      while j < |p.vars|
        invariant 0 <= j <= |p.vars|
        invariant done <= all
        invariant forall q, x :: q in pods[..i] && x in q.vars ==> x in done
        invariant forall x :: x in p.vars[..j] ==> x in done
        invariant forall x :: x in all ==> x.status == if x in done then Settled(orig[x]) else orig[x]
      {
        var x := p.vars[j];
        assert p in pods && x in p.vars;
        assert x in all;
        if x.status == Active {
          x.status := Succeeded;
        }
        done := done + {x};
        j := j + 1;
      }
      assert p.vars[..j] == p.vars;
      assert pods[..i + 1] == pods[..i] + [p];
      i := i + 1;
    }
    assert pods[..i] == pods;
    return pods;
  }
}
