/**
 * The object status model of the data request: the lifecycle flag and stage
 * of each entity below the case, the errors recorded on deactivation, and the
 * entities themselves (pods, variables and their data keys), whose fields the
 * pipeline's stages update in place.
 */
module Objects {

  datatype Option<+T> = None | Some(value: T)

  /** Lifecycle flag carried by every pod, variable and data key. */
  datatype ObjectStatus = NotSet | Active | Succeeded | Failed

  /** A variable's progress through the data request, in pipeline order. */
  datatype Stage = NotFetched | Queried | Fetched | Preprocessed
  {
    function Rank(): nat
    {
      match this
      case NotFetched => 0
      case Queried => 1
      case Fetched => 2
      case Preprocessed => 3
    }

    /** The `<` of the stage enumeration. */
    predicate Before(other: Stage)
    {
      Rank() < other.Rank()
    }
  }

  /** The exception classes the stages tell apart. */
  datatype ErrorKind = DataQueryEvent | DataFetchEvent | OtherKind(name: string)

  /**
   * An exception. `Exc` is one raised by a collaborator or by the stage code
   * itself (`subject` names the entity it is about); `Chained` is the result of
   * re-typing a cause into a stage-specific kind with a context message.
   */
  datatype Error =
    | Exc(kind: ErrorKind, message: string, subject: string)
    | Chained(cause: Error, context: string, kind: ErrorKind)
  {
    /** The original exception at the bottom of the cause chain. */
    function Root(): Error
    {
      match this
      case Exc(_, _, _) => this
      case Chained(c, _, _) => c.Root()
    }
  }

  /** Wrapping a cause in a stage-specific kind keeps its root cause. */
  function Chain(cause: Error, context: string, kind: ErrorKind): (e: Error)
    ensures e.kind == kind && e.Root() == cause.Root() && e != cause
  {
    Chained(cause, context, kind)
  }

  /** One concrete dataset reference backing a variable. */
  class DataKey {
    const name: string
    var status: ObjectStatus
    /** Paths of the locally fetched files; empty until a fetch provides them. */
    var localData: seq<string>
    /** The error recorded by the last deactivation. */
    var failure: Option<Error>

    constructor (name: string)
      ensures this.name == name && status == Active && localData == [] && failure == None
    {
      this.name := name;
      status := Active;
      localData := [];
      failure := None;
    }

    /** Deactivation: the key is marked failed and the causing error is recorded. */
    method Deactivate(e: Error)
      modifies this`status, this`failure
      ensures status == Failed && failure == Some(e)
    {
      status := Failed;
      failure := Some(e);
    }
  }

  /** One named data quantity a pod needs. */
  class Variable {
    const name: string
    const fullName: string
    /** The catalog-facing identity that is queried. */
    const translation: string
    /** Ordered groups of fallback variables, tried when this one cannot be queried. */
    const alternates: seq<seq<Variable>>
    var stage: Stage
    var status: ObjectStatus
    var failure: Option<Error>
    /** The data keys the query found for this variable. */
    var data: seq<DataKey>

    constructor (name: string, fullName: string, translation: string, alternates: seq<seq<Variable>>)
      ensures this.name == name && this.fullName == fullName && this.translation == translation
      ensures this.alternates == alternates
      ensures stage == NotFetched && status == Active && failure == None && data == []
    {
      this.name := name;
      this.fullName := fullName;
      this.translation := translation;
      this.alternates := alternates;
      stage := NotFetched;
      status := Active;
      failure := None;
      data := [];
    }

    /** Deactivation: the variable is marked failed and the causing error is recorded. */
    method Deactivate(e: Error)
      modifies this`status, this`failure
      ensures status == Failed && failure == Some(e)
    {
      status := Failed;
      failure := Some(e);
    }

    /** Deactivation of one of this variable's data keys with the given cause. */
    method DeactivateDataKey(k: DataKey, e: Error)
      modifies k`status, k`failure
      ensures k.status == Failed && k.failure == Some(e)
    {
      k.Deactivate(e);
    }
  }

  /** One analysis program, owning its variables in declaration order. */
  class Pod {
    const name: string
    const vars: seq<Variable>
    var status: ObjectStatus

    constructor (name: string, vars: seq<Variable>)
      ensures this.name == name && this.vars == vars && status == Active
    {
      this.name := name;
      this.vars := vars;
      status := Active;
    }
  }

  /** Every variable of every pod of a case. */
  function AllVars(pods: seq<Pod>): set<Variable>
  {
    set p, x | p in pods && x in p.vars :: x
  }

  /** The fields of a data key that the fetch and preprocess stages read and write, as one value. */
  datatype KeyState = KeyState(status: ObjectStatus, localData: seq<string>, failure: Option<Error>)

  function KeyStateOf(k: DataKey): KeyState
    reads k
  {
    KeyState(k.status, k.localData, k.failure)
  }

  /** A snapshot of the states of `keys`. */
  function KeyStates(keys: seq<DataKey>): (m: map<DataKey, KeyState>)
    reads set k | k in keys
    ensures forall k :: k in keys ==> k in m && m[k] == KeyStateOf(k)
  {
    map k | k in keys :: KeyStateOf(k)
  }

  /** The current states of `keys`, position by position. */
  function States(keys: seq<DataKey>): (r: seq<KeyState>)
    reads set k | k in keys
    ensures |r| == |keys|
    ensures forall i :: 0 <= i < |keys| ==> r[i] == KeyStateOf(keys[i])
  {
    if keys == [] then []
    else
      assert forall k :: k in keys[1..] ==> k in keys;
      [KeyStateOf(keys[0])] + States(keys[1..])
  }
}
