/**
 * The stage selectors: the code that builds each fan-out batch. A batch is a
 * sequence of work items, each an entity paired with the correlation key the
 * scheduler files it under.
 */
module Selectors {
  import opened Objects

  /** One fanned-out unit of work and its correlation (mapping) key. */
  datatype WorkItem<T> = WorkItem(key: string, item: T)

  /**
   * `iter_vars(active=True)`: every pod of the case paired with each of its
   * active variables, pod by pod and, within a pod, in declaration order.
   */
  function PodVars(pods: seq<Pod>): (r: seq<(Pod, Variable)>)
    reads AllVars(pods)
    ensures forall pr :: pr in r ==> pr.0 in pods && pr.1 in pr.0.vars && pr.1.status == Active
    ensures forall p, x :: p in pods && x in p.vars && x.status == Active ==> (p, x) in r
  {
    if pods == [] then []
    else
      assert forall p :: p in pods[1..] ==> p in pods;
      ActiveOf(pods[0], pods[0].vars) + PodVars(pods[1..])
  }

  /** The active members of `vars`, each paired with `p`. */
  function ActiveOf(p: Pod, vars: seq<Variable>): (r: seq<(Pod, Variable)>)
    reads set x | x in vars
    ensures forall pr :: pr in r ==> pr.0 == p && pr.1 in vars && pr.1.status == Active
    ensures forall x :: x in vars && x.status == Active ==> (p, x) in r
  {
    if vars == [] then []
    else (if vars[0].status == Active then [(p, vars[0])] else []) + ActiveOf(p, vars[1..])
  }

  /**
   * `iter_vars_only(active=True)`: the variables of `iter_vars(active=True)`,
   * in the same order; these are exactly the active variables of the case.
   */
  function ActiveVars(pods: seq<Pod>): (r: seq<Variable>)
    reads AllVars(pods)
    ensures |r| == |PodVars(pods)|
    ensures forall i :: 0 <= i < |r| ==> r[i] == PodVars(pods)[i].1
    ensures forall x :: x in r ==> x in AllVars(pods) && x.status == Active
    ensures forall x :: x in AllVars(pods) && x.status == Active ==> x in r
  {
    var pv := PodVars(pods);
    var r := seq(|pv|, i requires 0 <= i < |pv| => pv[i].1);
    forall x | x in AllVars(pods) && x.status == Active
      ensures x in r
    {
      var p :| p in pods && x in p.vars;
      assert (p, x) in pv;
      var i :| 0 <= i < |pv| && pv[i] == (p, x);
      assert r[i] == x;
    }
    forall x | x in r
      ensures x in AllVars(pods) && x.status == Active
    {
      var i :| 0 <= i < |r| && r[i] == x;
      assert pv[i] in pv;
    }
    r
  }

  /** A variable still has to pass through stage `target`. */
  predicate Pending(v: Variable, target: Stage)
    reads v
  {
    v.stage.Before(target)
  }

  /**
   * The list comprehension shared by the query and fetch selectors: the
   * members of `vars` whose stage is below `target`, in order, each keyed by
   * its own name.
   */
  function StageBatch(vars: seq<Variable>, target: Stage): (r: seq<WorkItem<Variable>>)
    reads set x | x in vars
    ensures |r| <= |vars|
    ensures forall w :: w in r ==> w.key == w.item.name && w.item in vars && Pending(w.item, target)
    ensures forall x :: x in vars && Pending(x, target) ==> WorkItem(x.name, x) in r
  {
    if vars == [] then []
    else
      assert forall x :: x in vars[1..] ==> x in vars;
      (if Pending(vars[0], target) then [WorkItem(vars[0].name, vars[0])] else []) + StageBatch(vars[1..], target)
  }

  /** `data_setup`: the query batch holds exactly the active variables not yet queried, each keyed by its name. */
  function DataSetup(pods: seq<Pod>): (r: seq<WorkItem<Variable>>)
    reads AllVars(pods)
    ensures forall w :: w in r ==>
      && w.key == w.item.name
      && w.item in AllVars(pods)
      && w.item.status == Active
      && w.item.stage.Before(Queried)
    ensures forall x :: x in AllVars(pods) && x.status == Active && x.stage.Before(Queried) ==> WorkItem(x.name, x) in r
  {
    StageBatch(ActiveVars(pods), Queried)
  }

  /** `data_select`: the fetch batch holds exactly the active variables not yet fetched, each keyed by its name. */
  function DataSelect(pods: seq<Pod>): (r: seq<WorkItem<Variable>>)
    reads AllVars(pods)
    ensures forall w :: w in r ==>
      && w.key == w.item.name
      && w.item in AllVars(pods)
      && w.item.status == Active
      && w.item.stage.Before(Fetched)
    ensures forall x :: x in AllVars(pods) && x.status == Active && x.stage.Before(Fetched) ==> WorkItem(x.name, x) in r
  {
    StageBatch(ActiveVars(pods), Fetched)
  }

  /** The selection keeps iteration order: selecting from a concatenation concatenates the selections. */
  lemma {:induction false} StageBatchAppend(a: seq<Variable>, b: seq<Variable>, target: Stage)
    ensures StageBatch(a + b, target) == StageBatch(a, target) + StageBatch(b, target)
  {
    if a == [] {
      assert a + b == b;
    } else {
      assert (a + b)[0] == a[0] && (a + b)[1..] == a[1..] + b;
      StageBatchAppend(a[1..], b, target);
    }
  }

  /** No two work items share a correlation key. */
  predicate DistinctKeys<T>(r: seq<WorkItem<T>>)
  {
    forall i, j :: 0 <= i < j < |r| ==> r[i].key != r[j].key
  }

  /** Variables with pairwise distinct names get pairwise distinct correlation keys. */
  lemma {:induction false} BatchKeysDistinct(vars: seq<Variable>, target: Stage)
    requires forall i, j :: 0 <= i < j < |vars| ==> vars[i].name != vars[j].name
    ensures DistinctKeys(StageBatch(vars, target))
  {
    if vars != [] {
      var tail := vars[1..];
      assert forall i, j :: 0 <= i < j < |tail| ==> tail[i].name != tail[j].name by {
        forall i, j | 0 <= i < j < |tail|
          ensures tail[i].name != tail[j].name
        {
          assert tail[i] == vars[i + 1] && tail[j] == vars[j + 1];
        }
      }
      BatchKeysDistinct(tail, target);
      var rest := StageBatch(tail, target);
      forall w | w in rest
        ensures w.key != vars[0].name
      {
        var j :| 0 <= j < |tail| && tail[j] == w.item;
        assert vars[j + 1] == w.item;
      }
      if Pending(vars[0], target) {
        ConsDistinct(WorkItem(vars[0].name, vars[0]), rest);
      }
    }
  }

  /**
   * Names need not be distinct across pods: two pods that each have an active,
   * unqueried variable of the same name put two different work items with the
   * same mapping key into the query batch.
   */
  lemma SharedNameCollision(p1: Pod, p2: Pod, x1: Variable, x2: Variable)
    requires p1.vars == [x1] && p2.vars == [x2] && x1 != x2 && x1.name == x2.name
    requires x1.status == Active && x2.status == Active
    requires x1.stage == NotFetched && x2.stage == NotFetched
    ensures !DistinctKeys(DataSetup([p1, p2]))
  {
    var pods := [p1, p2];
    var r := DataSetup(pods);
    var w1, w2 := WorkItem(x1.name, x1), WorkItem(x2.name, x2);
    assert p1 in pods && x1 in p1.vars && p2 in pods && x2 in p2.vars;
    assert w1 in r && w2 in r;
    var i :| 0 <= i < |r| && r[i] == w1;
    var j :| 0 <= j < |r| && r[j] == w2;
    assert i != j && r[i].key == r[j].key;
  }

  /** A work item whose key no later item has, put in front of items with distinct keys. */
  lemma ConsDistinct<T>(head: WorkItem<T>, rest: seq<WorkItem<T>>)
    requires DistinctKeys(rest)
    requires forall w :: w in rest ==> w.key != head.key
    ensures DistinctKeys([head] + rest)
  {
    var r := [head] + rest;
    forall i, j | 0 <= i < j < |r|
      ensures r[i].key != r[j].key
    {
      assert r[j] == rest[j - 1];
      if i > 0 {
        assert r[i] == rest[i - 1];
      }
    }
  }

  /** The mapping key `data_preproc_setup` gives a (pod, variable) pair. */
  function PodVarKey(p: Pod, v: Variable): string
  {
    p.name + "_" + v.name
  }

  /**
   * `data_preproc_setup`: every (pod, active variable) pair whose variable is
   * not yet preprocessed, keyed by pod name and variable name.
   */
  function PreprocBatch(pairs: seq<(Pod, Variable)>): (r: seq<WorkItem<(Pod, Variable)>>)
    reads set pr | pr in pairs :: pr.1
    ensures |r| <= |pairs|
    ensures forall w :: w in r ==>
      w.item in pairs && w.key == PodVarKey(w.item.0, w.item.1) && Pending(w.item.1, Preprocessed)
    ensures forall pr :: pr in pairs && Pending(pr.1, Preprocessed) ==> WorkItem(PodVarKey(pr.0, pr.1), pr) in r
  {
    if pairs == [] then []
    else
      assert forall pr :: pr in pairs[1..] ==> pr in pairs;
      var pr := pairs[0];
      (if Pending(pr.1, Preprocessed) then [WorkItem(PodVarKey(pr.0, pr.1), pr)] else [])
        + PreprocBatch(pairs[1..])
  }

  /**
   * `data_preproc_setup` over the case: the batch holds exactly the pairs of a
   * pod and one of its active variables not yet preprocessed, each keyed by
   * pod name and variable name.
   */
  function DataPreprocSetup(pods: seq<Pod>): (r: seq<WorkItem<(Pod, Variable)>>)
    reads AllVars(pods)
    ensures forall w :: w in r ==>
      && w.item.0 in pods
      && w.item.1 in w.item.0.vars
      && w.item.1.status == Active
      && Pending(w.item.1, Preprocessed)
      && w.key == PodVarKey(w.item.0, w.item.1)
    ensures forall p, x :: p in pods && x in p.vars && x.status == Active && Pending(x, Preprocessed) ==>
      WorkItem(PodVarKey(p, x), (p, x)) in r
  {
    PreprocBatch(PodVars(pods))
  }

  /** The position of the first `c` in `s`, or `|s|` if there is none. */
  function IndexOf(s: string, c: char): (i: nat)
    ensures i <= |s|
    ensures c !in s[..i]
    ensures i < |s| ==> s[i] == c
  {
    if s == [] then 0 else if s[0] == c then 0 else 1 + IndexOf(s[1..], c)
  }

  /** In `a + [c] + b` with no `c` in `a`, the first `c` is the one right after `a`. */
  lemma {:induction false} IndexOfAfter(a: string, c: char, b: string)
    requires c !in a
    ensures IndexOf(a + [c] + b, c) == |a|
  {
    if a != [] {
      assert (a + [c] + b)[1..] == a[1..] + [c] + b;
      IndexOfAfter(a[1..], c, b);
    }
  }

  /** Pod names without an underscore make the preprocess mapping key determine the pair of names. */
  lemma PodVarKeyInjective(p1: Pod, v1: Variable, p2: Pod, v2: Variable)
    requires '_' !in p1.name && '_' !in p2.name
    requires PodVarKey(p1, v1) == PodVarKey(p2, v2)
    ensures p1.name == p2.name && v1.name == v2.name
  {
    var k := PodVarKey(p1, v1);
    IndexOfAfter(p1.name, '_', v1.name);
    IndexOfAfter(p2.name, '_', v2.name);
    assert p1.name + "_" + v1.name == p1.name + ['_'] + v1.name;
    assert p2.name + "_" + v2.name == p2.name + ['_'] + v2.name;
    assert p1.name == k[..|p1.name|] == p2.name;
    assert v1.name == k[|p1.name| + 1..] == v2.name;
  }

  /**
   * Without that restriction two different (pod, variable) name pairs can get
   * the same key: pod `a_b` with variable `c`, and pod `a` with variable `b_c`.
   */
  lemma PodVarKeyCollision(p1: Pod, v1: Variable, p2: Pod, v2: Variable)
    requires p1.name == "a_b" && v1.name == "c" && p2.name == "a" && v2.name == "b_c"
    ensures p1.name != p2.name && PodVarKey(p1, v1) == PodVarKey(p2, v2)
  {
    assert PodVarKey(p1, v1) == "a_b_c" == PodVarKey(p2, v2);
  }

  /** `iter_active_pods`: the pods whose status is active, in order. */
  function ActivePods(pods: seq<Pod>): (r: seq<Pod>)
    reads set p | p in pods
    ensures forall p :: p in r ==> p in pods && p.status == Active
    ensures forall p :: p in pods && p.status == Active ==> p in r
  {
    if pods == [] then []
    else
      assert forall p :: p in pods[1..] ==> p in pods;
      (if pods[0].status == Active then [pods[0]] else []) + ActivePods(pods[1..])
  }

  /** One work item per pod, keyed by the pod's name, in order. */
  function KeyedPods(ps: seq<Pod>): (r: seq<WorkItem<Pod>>)
    ensures |r| == |ps|
    ensures forall w :: w in r ==> w.item in ps && w.key == w.item.name
    ensures forall p :: p in ps ==> WorkItem(p.name, p) in r
  {
    if ps == [] then [] else [WorkItem(ps[0].name, ps[0])] + KeyedPods(ps[1..])
  }

  /**
   * `run_setup`: one work item per active pod, keyed by the pod's name; when no
   * pod is active it returns before emitting anything.
   */
  function RunSetup(pods: seq<Pod>): (r: seq<WorkItem<Pod>>)
    reads set p | p in pods
    ensures r == [] <==> forall p :: p in pods ==> p.status != Active
    ensures forall w :: w in r ==> w.item in pods && w.item.status == Active && w.key == w.item.name
    ensures forall p :: p in pods && p.status == Active ==> WorkItem(p.name, p) in r
  {
    var active := ActivePods(pods);
    if active == [] then []
    else
      assert active[0] in active;
      KeyedPods(active)
  }
}
