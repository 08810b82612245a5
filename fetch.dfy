/**
 * The fetch stage for one variable (`data_fetch`): a loop over the variable's
 * active data keys that fetches every key that needs it and stops at the first
 * fetch that raises, then a check that every key still active received data.
 * The stage never raises: a failed check deactivates the variable instead.
 */
module Fetch {
  import opened Objects

  /** What the data source's fetch call does for one key: it provides local files or raises. */
  datatype FetchResult = Delivered(files: seq<string>) | FetchRaises(error: Error)

  /** The loop body for key `k` of `v` in state `s` ends in the `break`. */
  predicate Breaks(v: Variable, k: DataKey, necessary: DataKey -> bool,
                   fetch: (Variable, DataKey) -> FetchResult, s: KeyState)
  {
    s.status == Active && necessary(k) && fetch(v, k).FetchRaises?
  }

  /**
   * The loop body's effect on key `k` in state `s`: an inactive key is not
   * visited, a key that needs no fetch is skipped, a fetched key receives its
   * files, and a key whose fetch raises is deactivated with that exception.
   */
  function FetchStep(v: Variable, k: DataKey, necessary: DataKey -> bool,
                     fetch: (Variable, DataKey) -> FetchResult, s: KeyState): KeyState
  {
    if s.status != Active || !necessary(k) then s
    else match fetch(v, k)
      case Delivered(files) => s.(localData := files)
      case FetchRaises(e) => s.(status := Failed, failure := Some(e))
  }

  /** The index of the key at which the loop breaks, or `|keys|` if it runs to the end. */
  function FetchStop(v: Variable, keys: seq<DataKey>, necessary: DataKey -> bool,
                     fetch: (Variable, DataKey) -> FetchResult, orig: map<DataKey, KeyState>): (j: nat)
    requires forall k :: k in keys ==> k in orig
    ensures j <= |keys|
    ensures forall i :: 0 <= i < j ==> !Breaks(v, keys[i], necessary, fetch, orig[keys[i]])
    ensures j < |keys| ==> Breaks(v, keys[j], necessary, fetch, orig[keys[j]])
  {
    if keys == [] then 0
    else if Breaks(v, keys[0], necessary, fetch, orig[keys[0]]) then 0
    else 1 + FetchStop(v, keys[1..], necessary, fetch, orig)
  }

  /** The keys the loop visits when it breaks at index `j`. */
  function Reached(keys: seq<DataKey>, j: nat): seq<DataKey>
  {
    if j < |keys| then keys[..j + 1] else keys
  }

  /** The state of key `k` after the fetch loop over `keys` from the states `orig`. */
  function AfterLoop(v: Variable, k: DataKey, keys: seq<DataKey>, necessary: DataKey -> bool,
                     fetch: (Variable, DataKey) -> FetchResult, orig: map<DataKey, KeyState>): KeyState
    requires k in orig && forall k' :: k' in keys ==> k' in orig
  {
    if k in Reached(keys, FetchStop(v, keys, necessary, fetch, orig))
    then FetchStep(v, k, necessary, fetch, orig[k])
    else orig[k]
  }

  /** The states of all of `keys` after the fetch loop, position by position. */
  function StatesAfterLoop(v: Variable, keys: seq<DataKey>, necessary: DataKey -> bool,
                           fetch: (Variable, DataKey) -> FetchResult, orig: map<DataKey, KeyState>)
    : (r: seq<KeyState>)
    requires forall k :: k in keys ==> k in orig
    ensures |r| == |keys|
    ensures forall i :: 0 <= i < |keys| ==> r[i] == AfterLoop(v, keys[i], keys, necessary, fetch, orig)
  {
    seq(|keys|, i requires 0 <= i < |keys| => AfterLoop(v, keys[i], keys, necessary, fetch, orig))
  }

  /** A key that the check loop sees as active but without local data. */
  predicate Missing(s: KeyState)
  {
    s.status == Active && |s.localData| == 0
  }

  /** The position of the first missing key, or `|ss|` if every active key has data. */
  function FirstMissingIn(ss: seq<KeyState>): (j: nat)
    ensures j <= |ss|
    ensures forall i :: 0 <= i < j ==> !Missing(ss[i])
    ensures j < |ss| ==> Missing(ss[j])
  {
    if ss == [] then 0 else if Missing(ss[0]) then 0 else 1 + FirstMissingIn(ss[1..])
  }

  /** The exception the check loop raises for key `k`, re-typed by the stage's handler. */
  function FetchFailure(v: Variable, k: DataKey): Error
  {
    Chain(Exc(DataFetchEvent, "Fetch failed.", k.name), "fetching data for " + v.fullName + ".", DataFetchEvent)
  }

  /**
   * The per-key fetch loop (`for d_key in v.iter_data_keys(status=ACTIVE)`)
   * over `keys`, the data keys of `v`.
   */
  method FetchKeys(v: Variable, keys: seq<DataKey>, necessary: DataKey -> bool,
                   fetch: (Variable, DataKey) -> FetchResult)
    modifies set k | k in keys
    ensures States(keys) == StatesAfterLoop(v, keys, necessary, fetch, old(KeyStates(keys)))
  {
    ghost var orig := KeyStates(keys);
    var i := 0;
    while i < |keys|
      invariant 0 <= i <= |keys|
      invariant forall j :: 0 <= j < i ==> !Breaks(v, keys[j], necessary, fetch, orig[keys[j]])
      invariant forall k :: k in keys ==>
        KeyStateOf(k) == if k in keys[..i] then FetchStep(v, k, necessary, fetch, orig[k]) else orig[k]
    {
      var k := keys[i];
      assert keys[..i + 1] == keys[..i] + [k];
      if k.status == Active && necessary(k) {
        match fetch(v, k)
        case Delivered(files) =>
          k.localData := files;
        case FetchRaises(e) =>
          assert k !in keys[..i];
          k.Deactivate(e);
          FetchStopAt(v, keys, necessary, fetch, orig, i);
          assert keys[..i + 1] == Reached(keys, i);
          AfterLoopStates(v, keys, necessary, fetch, orig);
          return;
      }
      i := i + 1;
    }
    FetchStopAt(v, keys, necessary, fetch, orig, i);
    assert keys[..i] == Reached(keys, i);
    AfterLoopStates(v, keys, necessary, fetch, orig);
  }

  /** The loop breaks at `j` when no earlier key breaks and the key at `j`, if any, does. */
  lemma {:induction false} FetchStopAt(v: Variable, keys: seq<DataKey>, necessary: DataKey -> bool,
                                       fetch: (Variable, DataKey) -> FetchResult,
                                       orig: map<DataKey, KeyState>, j: nat)
    requires forall k :: k in keys ==> k in orig
    requires j <= |keys|
    requires forall i :: 0 <= i < j ==> !Breaks(v, keys[i], necessary, fetch, orig[keys[i]])
    requires j < |keys| ==> Breaks(v, keys[j], necessary, fetch, orig[keys[j]])
    ensures FetchStop(v, keys, necessary, fetch, orig) == j
  {
    if keys != [] && j > 0 {
      assert forall k :: k in keys[1..] ==> k in keys;
      FetchStopAt(v, keys[1..], necessary, fetch, orig, j - 1);
    }
  }

  /** Keys each in their after-loop state make up the after-loop sequence of states. */
  lemma AfterLoopStates(v: Variable, keys: seq<DataKey>, necessary: DataKey -> bool,
                        fetch: (Variable, DataKey) -> FetchResult, orig: map<DataKey, KeyState>)
    requires forall k :: k in keys ==> k in orig
    requires forall k :: k in keys ==> KeyStateOf(k) == AfterLoop(v, k, keys, necessary, fetch, orig)
    ensures States(keys) == StatesAfterLoop(v, keys, necessary, fetch, orig)
  {
    assert forall i :: 0 <= i < |keys| ==> keys[i] in keys;
  }

  /** The check loop: the position of the first active key without local data. */
  method FirstMissing(keys: seq<DataKey>) returns (j: nat)
    ensures j == FirstMissingIn(States(keys))
  {
    ghost var ss := States(keys);
    j := 0;
    while j < |keys|
      invariant 0 <= j <= |keys|
      invariant forall i :: 0 <= i < j ==> !Missing(ss[i])
    {
      if keys[j].status == Active && |keys[j].localData| == 0 {
        assert Missing(ss[j]);
        FirstMissingAt(ss, j);
        return;
      }
      j := j + 1;
    }
    FirstMissingAt(ss, j);
  }

  /** The first missing position is the first position that is missing. */
  lemma {:induction false} FirstMissingAt(ss: seq<KeyState>, j: nat)
    requires j <= |ss|
    requires forall i :: 0 <= i < j ==> !Missing(ss[i])
    requires j < |ss| ==> Missing(ss[j])
    ensures FirstMissingIn(ss) == j
  {
    if ss != [] && j > 0 {
      FirstMissingAt(ss[1..], j - 1);
    }
  }

  /** The fields of a variable that the fetch stage writes, as one value. */
  datatype VarOutcome = VarOutcome(stage: Stage, status: ObjectStatus, failure: Option<Error>)

  function OutcomeOf(v: Variable): VarOutcome
    reads v
  {
    VarOutcome(v.stage, v.status, v.failure)
  }

  /**
   * The key the check loop raises for, given the states `ss` of `keys`: the
   * first active key without local data, if there is one.
   */
  function MissingAmong(keys: seq<DataKey>, ss: seq<KeyState>): (r: Option<DataKey>)
    requires |ss| == |keys|
    ensures r.None? <==> forall i :: 0 <= i < |ss| ==> !Missing(ss[i])
    ensures r.Some? ==> exists i :: 0 <= i < |ss| && Missing(ss[i]) && r.value == keys[i]
  {
    var m := FirstMissingIn(ss);
    if m < |keys| then Some(keys[m]) else None
  }

  /**
   * The outcome of the check after the loop for variable `v` in state `o`:
   * when no key is `missing`, `v` reaches FETCHED; otherwise the handler
   * deactivates it with the re-typed exception for the missing key, and the
   * stage is kept.
   */
  function Checked(v: Variable, o: VarOutcome, missing: Option<DataKey>): VarOutcome
  {
    match missing
    case None => o.(stage := Fetched)
    case Some(k) => o.(status := Failed, failure := Some(FetchFailure(v, k)))
  }

  /**
   * The check after the loop and the end of the stage: the first active key
   * of `keys` without local data is looked for, and `v` settles accordingly.
   * No key changes.
   */
  method CheckKeys(v: Variable, keys: seq<DataKey>)
    modifies v`stage, v`status, v`failure
    ensures States(keys) == old(States(keys))
    ensures OutcomeOf(v) == Checked(v, old(OutcomeOf(v)), MissingAmong(keys, States(keys)))
  {
    var m := FirstMissing(keys);
    if m < |keys| {
      v.Deactivate(FetchFailure(v, keys[m]));
    } else {
      v.stage := Fetched;
    }
  }

  /**
   * The fetch stage for one variable (`data_fetch`). It always returns `v`.
   * The data keys end as the fetch loop leaves them; the variable reaches
   * FETCHED when no active key lacks local data, and is otherwise deactivated
   * with the check loop's exception for the first such key, its stage kept.
   */
  method DataFetch(v: Variable, necessary: DataKey -> bool, fetch: (Variable, DataKey) -> FetchResult)
    returns (r: Variable)
    modifies v`stage, v`status, v`failure, set k | k in v.data
    ensures r == v
    ensures var after := StatesAfterLoop(v, v.data, necessary, fetch, old(KeyStates(v.data)));
      && States(v.data) == after
      && OutcomeOf(v) == Checked(v, old(OutcomeOf(v)), MissingAmong(v.data, after))
  {
    var keys := v.data;
    ghost var before := OutcomeOf(v);
    FetchKeys(v, keys, necessary, fetch);
    assert OutcomeOf(v) == before;
    CheckKeys(v, keys);
    assert v.data == keys;
    return v;
  }

  /** No data key occurs twice in `keys`. */
  predicate NoRepeatedKeys(keys: seq<DataKey>)
  {
    forall i, j :: 0 <= i < j < |keys| ==> keys[i] != keys[j]
  }

  /**
   * What the fetch loop leaves at position `i` of distinct keys, stopping at
   * `stop`: before the stop a key is skipped (inactive or needing no fetch) or
   * receives its files and stays active; the key at the stop is deactivated
   * with its fetch's exception; the keys after the stop are never visited.
   */
  lemma FetchLoopOutcome(v: Variable, keys: seq<DataKey>, necessary: DataKey -> bool,
                         fetch: (Variable, DataKey) -> FetchResult, orig: map<DataKey, KeyState>, i: nat)
    requires forall k :: k in keys ==> k in orig
    requires NoRepeatedKeys(keys) && i < |keys|
    ensures var k, stop := keys[i], FetchStop(v, keys, necessary, fetch, orig);
      var after := AfterLoop(v, k, keys, necessary, fetch, orig);
      && (i < stop && (orig[k].status != Active || !necessary(k)) ==> after == orig[k])
      && (i < stop && orig[k].status == Active && necessary(k) ==>
            fetch(v, k).Delivered? && after == orig[k].(localData := fetch(v, k).files))
      && (i == stop ==> after == orig[k].(status := Failed, failure := Some(fetch(v, k).error)))
      && (i > stop ==> after == orig[k])
  {
    var k, stop := keys[i], FetchStop(v, keys, necessary, fetch, orig);
    var reached := Reached(keys, stop);
    if i <= stop {
      assert reached[i] == k;
    } else {
      assert reached == keys[..stop + 1];
      assert k !in reached by {
        forall j | 0 <= j < |reached|
          ensures reached[j] != k
        {
          assert reached[j] == keys[j];
        }
      }
    }
  }

  /**
   * The check loop ignores the key the fetch loop deactivated: when every other
   * key ends active with local data or inactive, the variable passes the check
   * although one of its fetches raised.
   */
  lemma FailedFetchPassesCheck(v: Variable, keys: seq<DataKey>, necessary: DataKey -> bool,
                               fetch: (Variable, DataKey) -> FetchResult, orig: map<DataKey, KeyState>)
    requires forall k :: k in keys ==> k in orig
    requires FetchStop(v, keys, necessary, fetch, orig) < |keys|
    requires var after := StatesAfterLoop(v, keys, necessary, fetch, orig);
      forall i :: 0 <= i < |keys| && i != FetchStop(v, keys, necessary, fetch, orig) ==> !Missing(after[i])
    ensures MissingAmong(keys, StatesAfterLoop(v, keys, necessary, fetch, orig)).None?
  {
    var after := StatesAfterLoop(v, keys, necessary, fetch, orig);
    var stop := FetchStop(v, keys, necessary, fetch, orig);
    assert Reached(keys, stop)[stop] == keys[stop];
    assert after[stop].status == Failed;
  }

  /**
   * Three keys, all active, needing a fetch and without local data: when only
   * the last fetch raises, the first two receive their files, the last is
   * deactivated, and the variable still reaches FETCHED.
   */
  lemma LastFetchRaisesPasses(v: Variable, k1: DataKey, k2: DataKey, k3: DataKey,
                              necessary: DataKey -> bool, fetch: (Variable, DataKey) -> FetchResult,
                              orig: map<DataKey, KeyState>, o: VarOutcome)
    requires k1 != k2 && k2 != k3 && k1 != k3
    requires k1 in orig && k2 in orig && k3 in orig
    requires Missing(orig[k1]) && Missing(orig[k2]) && Missing(orig[k3])
    requires necessary(k1) && necessary(k2) && necessary(k3)
    requires fetch(v, k1).Delivered? && |fetch(v, k1).files| > 0
    requires fetch(v, k2).Delivered? && |fetch(v, k2).files| > 0
    requires fetch(v, k3).FetchRaises?
    ensures var keys := [k1, k2, k3];
      Checked(v, o, MissingAmong(keys, StatesAfterLoop(v, keys, necessary, fetch, orig))) == o.(stage := Fetched)
  {
    var keys := [k1, k2, k3];
    FetchStopAt(v, keys, necessary, fetch, orig, 2);
    var after := StatesAfterLoop(v, keys, necessary, fetch, orig);
    assert Reached(keys, 2) == keys;
    assert !Missing(after[0]) && !Missing(after[1]) && !Missing(after[2]);
  }

  /**
   * The same three keys when only the first fetch raises: the loop breaks
   * before the second key, which stays active without data, so the check
   * fails on it and the variable is deactivated with its stage kept.
   */
  lemma FirstFetchRaisesFails(v: Variable, k1: DataKey, k2: DataKey, k3: DataKey,
                              necessary: DataKey -> bool, fetch: (Variable, DataKey) -> FetchResult,
                              orig: map<DataKey, KeyState>, o: VarOutcome)
    requires k1 != k2 && k2 != k3 && k1 != k3
    requires k1 in orig && k2 in orig && k3 in orig
    requires Missing(orig[k1]) && Missing(orig[k2]) && Missing(orig[k3])
    requires necessary(k1) && fetch(v, k1).FetchRaises?
    ensures var keys := [k1, k2, k3];
      Checked(v, o, MissingAmong(keys, StatesAfterLoop(v, keys, necessary, fetch, orig)))
        == o.(status := Failed, failure := Some(FetchFailure(v, k2)))
  {
    var keys := [k1, k2, k3];
    FetchStopAt(v, keys, necessary, fetch, orig, 0);
    var after := StatesAfterLoop(v, keys, necessary, fetch, orig);
    assert Reached(keys, 0) == [k1];
    assert !Missing(after[0]) && Missing(after[1]);
    FirstMissingAt(after, 1);
  }
}
