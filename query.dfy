/**
 * The query stage: one query attempt on a variable, and the alternates
 * resolver that tries the primary variable, then every alternate group in
 * order and every member of a group in order, until one query finds data.
 */
module Query {
  import opened Objects
  import opened Seqs

  /** What the data source's query call does for one variable: it finds keys or raises. */
  datatype QueryResult = Found(keys: seq<DataKey>) | QueryRaises(error: Error)

  datatype Result<T> = Ok(value: T) | Err(error: Error)

  /** A query succeeds only when it finds at least one data key; empty data is a failure. */
  predicate Answers(r: QueryResult)
  {
    r.Found? && |r.keys| > 0
  }

  function NoDataFound(v: Variable): Error
  {
    Exc(DataQueryEvent, "No data found.", v.fullName)
  }

  function QueryContext(v: Variable): string
  {
    "querying " + v.translation + " for " + v.fullName + "."
  }

  /** The exception a failed attempt raises to its caller. */
  function RaisedError(v: Variable, r: QueryResult): Error
    requires !Answers(r)
  {
    match r
    case Found(_) => NoDataFound(v)
    case QueryRaises(e) => e
  }

  /**
   * The error a failed attempt records on the variable. It is always a query
   * event with the same root cause as the raised exception, and it differs from
   * the raised exception exactly when that exception was of another kind.
   */
  function RecordedError(v: Variable, r: QueryResult): (e: Error)
    requires !Answers(r)
    ensures e.kind == DataQueryEvent
    ensures e.Root() == RaisedError(v, r).Root()
    ensures e == RaisedError(v, r) <==> RaisedError(v, r).kind == DataQueryEvent
  {
    match r
    case Found(_) => NoDataFound(v)
    case QueryRaises(x) =>
      if x.kind == DataQueryEvent then x else Chain(x, QueryContext(v), DataQueryEvent)
  }

  /** The data a variable holds after an attempt: the keys found, or what it had when the query raised. */
  function QueriedData(r: QueryResult, before: seq<DataKey>): seq<DataKey>
  {
    if r.Found? then r.keys else before
  }

  /** The fields of a variable that the query stage reads and writes, as one value. */
  datatype VarState = VarState(stage: Stage, status: ObjectStatus, failure: Option<Error>, data: seq<DataKey>)

  function StateOf(x: Variable): VarState
    reads x
  {
    VarState(x.stage, x.status, x.failure, x.data)
  }

  /** The state after a successful attempt: queried, holding the keys found, status and error kept. */
  function AnsweredState(x: Variable, query: Variable -> QueryResult, s: VarState): VarState
  {
    s.(stage := Queried, data := QueriedData(query(x), s.data))
  }

  /** The state after a failed attempt: deactivated with the recorded error, its stage kept. */
  function RejectedState(x: Variable, query: Variable -> QueryResult, s: VarState): VarState
    requires !Answers(query(x))
  {
    s.(status := Failed, failure := Some(RecordedError(x, query(x))), data := QueriedData(query(x), s.data))
  }

  /**
   * The state of `x` after an ordered search that rejected the candidates in
   * `rejected` and then stopped at `winner` (if any), starting from `s`.
   */
  function Settle(x: Variable, rejected: seq<Variable>, winner: Option<Variable>,
                  query: Variable -> QueryResult, s: VarState): VarState
    requires forall y :: y in rejected ==> !Answers(query(y))
  {
    if x in rejected then RejectedState(x, query, s)
    else if winner == Some(x) then AnsweredState(x, query, s)
    else s
  }

  /** One query attempt on `v` (the inner `_data_query`). */
  method QueryAttempt(v: Variable, query: Variable -> QueryResult) returns (res: Result<Variable>)
    modifies v
    ensures Answers(query(v)) ==> res == Ok(v) && StateOf(v) == AnsweredState(v, query, old(StateOf(v)))
    ensures !Answers(query(v)) ==>
      res == Err(RaisedError(v, query(v))) && StateOf(v) == RejectedState(v, query, old(StateOf(v)))
  {
    match query(v)
    case QueryRaises(e) =>
      if e.kind == DataQueryEvent {
        v.Deactivate(e);
      } else {
        v.Deactivate(Chain(e, QueryContext(v), DataQueryEvent));
      }
      return Err(e);
    case Found(keys) =>
      v.data := keys;
      if |keys| == 0 {
        var exc := NoDataFound(v);
        v.Deactivate(exc);
        return Err(exc);
      }
      v.stage := Queried;
      return Ok(v);
  }

  /** The variables the resolver may try for `vv`, in the order it tries them. */
  function Candidates(vv: Variable): (r: seq<Variable>)
    ensures forall x :: x in r ==> x == vv || exists g :: g in vv.alternates && x in g
  {
    FlattenMember(vv.alternates);
    [vv] + Flatten(vv.alternates)
  }

  /** The index of the first candidate whose query answers, or `|cands|` if none does. */
  function FirstAnswered(cands: seq<Variable>, query: Variable -> QueryResult): (i: nat)
    ensures i <= |cands|
    ensures forall x :: x in cands[..i] ==> !Answers(query(x))
    ensures i < |cands| ==> Answers(query(cands[i]))
  {
    if cands == [] then 0
    else if Answers(query(cands[0])) then 0
    else 1 + FirstAnswered(cands[1..], query)
  }

  /** The candidate an ordered search stops at when the first answer is at index `i`. */
  function Winner(cands: seq<Variable>, i: nat): Option<Variable>
  {
    if i < |cands| then Some(cands[i]) else None
  }

  /** Searching a concatenation: the second part is reached only when the first has no answer. */
  lemma {:induction false} FirstAnsweredAppend(a: seq<Variable>, b: seq<Variable>, query: Variable -> QueryResult)
    ensures FirstAnswered(a + b, query) ==
      if FirstAnswered(a, query) < |a| then FirstAnswered(a, query) else |a| + FirstAnswered(b, query)
  {
    if a == [] {
      assert a + b == b;
    } else {
      assert (a + b)[0] == a[0] && (a + b)[1..] == a[1..] + b;
      FirstAnsweredAppend(a[1..], b, query);
    }
  }

  /** A sequence none of whose members answers is searched to its end. */
  lemma {:induction false} FirstAnsweredNone(a: seq<Variable>, query: Variable -> QueryResult)
    requires forall x :: x in a ==> !Answers(query(x))
    ensures FirstAnswered(a, query) == |a|
  {
    if a != [] {
      assert forall x :: x in a[1..] ==> x in a;
      FirstAnsweredNone(a[1..], query);
    }
  }

  /**
   * One alternate group (`for v_alt in v_alt_set`), continuing a search that has
   * already rejected `prefix`: the members are attempted in order until one
   * answers. Over the variables in `scope` (which holds the group), starting
   * from the states `orig`, the members before it were deactivated, it was
   * marked queried, and nothing else was touched.
   */
  method TryGroup(group: seq<Variable>, query: Variable -> QueryResult, ghost prefix: seq<Variable>,
                  ghost orig: map<Variable, VarState>, ghost scope: seq<Variable>)
    returns (found: Option<Variable>)
    requires forall y :: y in prefix ==> !Answers(query(y))
    requires forall x :: x in group ==> x in scope
    requires forall x :: x in scope ==> x in orig && StateOf(x) == Settle(x, prefix, None, query, orig[x])
    modifies group
    ensures var k := FirstAnswered(group, query);
      && found == Winner(group, k)
      && (forall y :: y in prefix + group[..k] ==> !Answers(query(y)))
      && forall x :: x in scope ==>
           StateOf(x) == Settle(x, prefix + group[..k], Winner(group, k), query, orig[x])
  {
    var m := 0;
    while m < |group|
      invariant 0 <= m <= |group|
      invariant forall y :: y in prefix + group[..m] ==> !Answers(query(y))
      invariant forall x :: x in scope ==> StateOf(x) == Settle(x, prefix + group[..m], None, query, orig[x])
    {
      var x0 := group[m];
      label step:
      var attempt := QueryAttempt(x0, query);
      TakeNext(group, m);
      assert prefix + group[..m + 1] == (prefix + group[..m]) + [x0];
      if attempt.Ok? {
        assert FirstAnswered(group, query) == m by {
          FirstAnsweredAppend(group[..m], group[m..], query);
          FirstAnsweredNone(group[..m], query);
          assert group[..m] + group[m..] == group;
        }
        forall x | x in scope
          ensures StateOf(x) == Settle(x, prefix + group[..m], Some(x0), query, orig[x])
        {
          if x != x0 {
            assert StateOf(x) == old@step(StateOf(x));
          }
        }
        return Some(x0);
      }
      forall x | x in scope
        ensures StateOf(x) == Settle(x, prefix + group[..m + 1], None, query, orig[x])
      {
        if x != x0 {
          assert StateOf(x) == old@step(StateOf(x));
        }
      }
      m := m + 1;
    }
    assert group[..m] == group;
    FirstAnsweredNone(group, query);
    return None;
  }

  /**
   * The step of the alternates loop that finds an answer: a search over
   * `tried + (group + rest)` that got past `tried` stops where the search of
   * `group` stops.
   */
  lemma StopInGroup(flat: seq<Variable>, prefix: seq<Variable>, tried: seq<Variable>, group: seq<Variable>,
                    rest: seq<Variable>, query: Variable -> QueryResult)
    requires flat == tried + (group + rest)
    requires FirstAnswered(group, query) < |group|
    requires forall y :: y in tried ==> !Answers(query(y))
    ensures var i, k := FirstAnswered(flat, query), FirstAnswered(group, query);
      && Winner(flat, i) == Winner(group, k)
      && prefix + flat[..i] == prefix + tried + group[..k]
  {
    var k := FirstAnswered(group, query);
    FirstAnsweredAppend(tried, group + rest, query);
    FirstAnsweredNone(tried, query);
    FirstAnsweredAppend(group, rest, query);
    var i := FirstAnswered(flat, query);
    assert i == |tried| + k;
    TakeConcat(flat, tried, group, rest, k);
    assert flat[..i] == tried + group[..k];
    ConcatAssoc(prefix, tried, group[..k]);
    assert i < |flat| && flat[i] == group[k];
  }

  /**
   * The alternates loop (`for v_alt_set in ...`), continuing a search that has
   * already rejected `prefix`, from the states `orig`: the groups are tried in
   * order, each with `TryGroup`, until a member answers.
   */
  method TryAlternates(alts: seq<seq<Variable>>, query: Variable -> QueryResult,
                       ghost prefix: seq<Variable>, ghost orig: map<Variable, VarState>)
    returns (found: Option<Variable>)
    requires forall y :: y in prefix ==> !Answers(query(y))
    requires forall x :: x in Flatten(alts) ==> x in orig && StateOf(x) == Settle(x, prefix, None, query, orig[x])
    modifies set x | x in Flatten(alts)
    ensures var flat := Flatten(alts); var i := FirstAnswered(flat, query);
      && found == Winner(flat, i)
      && (forall y :: y in prefix + flat[..i] ==> !Answers(query(y)))
      && forall x :: x in flat ==>
           StateOf(x) == Settle(x, prefix + flat[..i], Winner(flat, i), query, orig[x])
  {
    ghost var flat := Flatten(alts);
    // `tried` are the alternates rejected so far, `todo` those not yet attempted.
    ghost var tried, todo := [], flat;
    assert alts[0..] == alts;
    var g := 0;
    while g < |alts|
      invariant 0 <= g <= |alts|
      invariant flat == tried + todo
      invariant todo == Flatten(alts[g..])
      invariant forall y :: y in prefix + tried ==> !Answers(query(y))
      invariant forall x :: x in flat ==> StateOf(x) == Settle(x, prefix + tried, None, query, orig[x])
    {
      ghost var rest := Flatten(alts[g + 1..]);
      assert todo == alts[g] + rest by {
        assert alts[g..][1..] == alts[g + 1..];
      }
      assert forall x :: x in alts[g] ==> x in flat;
      var hit := TryGroup(alts[g], query, prefix + tried, orig, flat);
      ghost var k := FirstAnswered(alts[g], query);
      if hit.Some? {
        assert forall y :: y in tried ==> y in prefix + tried;
        StopInGroup(flat, prefix, tried, alts[g], rest, query);
        return hit;
      }
      FirstAnsweredNone(alts[g], query);
      assert alts[g][..k] == alts[g];
      ConcatAssoc(prefix, tried, alts[g]);
      tried, todo := tried + alts[g], rest;
      g := g + 1;
    }
    assert alts[g..] == [];
    assert tried == flat;
    FirstAnsweredNone(flat, query);
    assert flat[..|flat|] == flat;
    return None;
  }

  /**
   * The query stage for one variable (`data_query`). The first candidate that
   * answers is returned; every candidate before it was deactivated; no later one
   * was touched. When none answers, the primary's own exception is re-raised.
   */
  method DataQuery(vv: Variable, query: Variable -> QueryResult) returns (res: Result<Variable>)
    modifies set x | x in Candidates(vv)
    ensures var cands, i := Candidates(vv), FirstAnswered(Candidates(vv), query);
      && res == (if i < |cands| then Ok(cands[i]) else Err(RaisedError(vv, query(vv))))
      && forall x :: x in cands ==>
           StateOf(x) == Settle(x, cands[..i], Winner(cands, i), query, old(StateOf(x)))
  {
    ghost var cands := Candidates(vv);
    ghost var orig := map x | x in cands :: StateOf(x);
    var primary := QueryAttempt(vv, query);
    if primary.Ok? {
      assert cands[0] == vv;
      return primary;
    }
    ghost var flat := Flatten(vv.alternates);
    assert cands == [vv] + flat;
    assert !Answers(query(vv));
    forall x | x in flat
      ensures x in orig && StateOf(x) == Settle(x, [vv], None, query, orig[x])
    {
      assert x in cands;
      if x != vv {
        assert StateOf(x) == old(StateOf(x));
      }
    }
    label before:
    var found := TryAlternates(vv.alternates, query, [vv], orig);
    ghost var i := FirstAnswered(flat, query);
    assert FirstAnswered(cands, query) == 1 + i by {
      assert cands[1..] == flat;
    }
    assert cands[..1 + i] == [vv] + flat[..i];
    if vv !in flat {
      assert StateOf(vv) == old@before(StateOf(vv));
    }
    if found.Some? {
      return Ok(found.value);
    }
    return Err(primary.error);
  }

  /**
   * Short-circuit, stated on groups and members: when the primary and every
   * alternate visited before member `m` of group `g` fail and that member
   * answers, it is the one the resolver returns.
   */
  lemma AlternateWins(vv: Variable, query: Variable -> QueryResult, g: nat, m: nat)
    requires g < |vv.alternates| && m < |vv.alternates[g]|
    requires !Answers(query(vv))
    requires forall g', m' ::
      (0 <= g' < |vv.alternates| && 0 <= m' < |vv.alternates[g']| && (g' < g || (g' == g && m' < m)))
      ==> !Answers(query(vv.alternates[g'][m']))
    requires Answers(query(vv.alternates[g][m]))
    ensures 1 + Position(vv.alternates, g, m) < |Candidates(vv)|
    ensures FirstAnswered(Candidates(vv), query) == 1 + Position(vv.alternates, g, m)
    ensures Candidates(vv)[1 + Position(vv.alternates, g, m)] == vv.alternates[g][m]
  {
    var alts, cands := vv.alternates, Candidates(vv);
    var p := Position(alts, g, m);
    FlattenAt(alts, g, m);
    forall j | 0 <= j < 1 + p
      ensures !Answers(query(cands[j]))
    {
      if j > 0 {
        var g', m' := Locate(alts, j - 1);
        FlattenAt(alts, g', m');
        if g < g' || (g == g' && m < m') {
          PositionOrder(alts, g, m, g', m');
          assert false;
        }
      }
    }
  }

  /**
   * Exhaustion: when the primary and every alternate of every group fail, no
   * candidate answers, so the resolver re-raises the primary's exception.
   */
  lemma AlternatesExhausted(vv: Variable, query: Variable -> QueryResult)
    requires !Answers(query(vv))
    requires forall g, m :: 0 <= g < |vv.alternates| && 0 <= m < |vv.alternates[g]| ==>
      !Answers(query(vv.alternates[g][m]))
    ensures FirstAnswered(Candidates(vv), query) == |Candidates(vv)|
  {
    var alts, cands := vv.alternates, Candidates(vv);
    forall j | 0 <= j < |cands|
      ensures !Answers(query(cands[j]))
    {
      if j > 0 {
        var g, m := Locate(alts, j - 1);
        FlattenAt(alts, g, m);
      }
    }
  }
}
