/**
 The normalised description of an actor that the generator consumes: the
 already-classified methods of the wrapped object, its constructor, and the
 attribute arguments (backend library, channel topology, identity flag and
 edit selectors). Also the generation-time diagnostics and the small
 Option/Result wrappers used throughout.
 */
module Actor {

  type Ident = string

  datatype Option<+T> = None | Some(value: T)

  /** Configuration errors: each one aborts generation with no output. */
  datatype GenError =
    | TraitWithoutNew(actor: Ident)                   // trait type, no `new`/`try_new`
    | MissingNew(actor: Ident)                        // plain type, no `new`/`try_new`
    | AsyncWithoutRuntime(actor: Ident, culprit: Ident) // async method with the `std` backend
    | UnknownEditTarget(ident: Ident)                 // edit selector names no fragment

  datatype Result<+T> = Ok(value: T) | Err(error: GenError) {
    predicate IsFailure() { Err? }

    function PropagateFailure<U>(): Result<U>
      requires Err?
    {
      Err(error)
    }

    function Extract(): T
      requires Ok?
    {
      value
    }
  }

  /** The classification of a method: input only, output only, both, neither
      (the last is the source's `ActorMethod::None`). */
  datatype MethodKind = Io | I | O | Neither

  predicate HasInput(k: MethodKind) { k == Io || k == I }
  predicate HasOutput(k: MethodKind) { k == Io || k == O }

  /** One classified method. `field` is the name of its script variant,
      `isAsync` the asyncness of the original signature and `liveAsync` that
      of the proxy signature after the classifier's per-backend rewrite. */
  datatype ActorMethod = ActorMethod(
    ident: Ident,
    field: Ident,
    kind: MethodKind,
    stat: bool,
    isAsync: bool,
    liveAsync: bool)

  /** Static methods with an output are not sent as messages: the proxy
      forwards them to the wrapped type directly. */
  predicate IsPassThrough(m: ActorMethod) {
    m.stat && (m.kind == Io || m.kind == O)
  }

  /** How the constructor returns the object: plainly, as an Option or as a
      Result; the proxy constructor keeps the same shape. */
  datatype NewShape = Plain | Optional | Fallible

  datatype Constructor = Constructor(ident: Ident, shape: NewShape)

  datatype Lib = Std | Smol | Tokio | AsyncStd

  datatype Channel = Unbounded | Buffer(capacity: nat) | Inter

  /** Edit selectors of one side (script or live): withdraw the type
      definition, and the methods/traits named (`Some([])` means all). */
  datatype EditGroup = EditGroup(def: bool, mets: Option<seq<Ident>>, trts: Option<seq<Ident>>)

  datatype Edit = Edit(live: EditGroup, script: EditGroup)

  datatype ActorSpec = ActorSpec(
    actorName: Ident,
    rename: Option<Ident>,
    isTrait: bool,
    methods: seq<ActorMethod>,
    ctor: Option<Constructor>,
    lib: Lib,
    channel: Channel,
    id: bool,
    edit: Edit)

  /** The name the generated types derive from: the rename if given. */
  function CustomName(spec: ActorSpec): Ident {
    match spec.rename
    case Some(n) => n
    case None => spec.actorName
  }

  function ScriptName(cust: Ident): Ident { cust + "Script" }
  function LiveName(cust: Ident): Ident { cust + "Live" }

  predicate AnyAsync(ms: seq<ActorMethod>) {
    exists i :: 0 <= i < |ms| && ms[i].isAsync
  }

  /** Position of the first async method, as the async diagnostic reports it. */
  function FirstAsync(ms: seq<ActorMethod>): (k: nat)
    requires AnyAsync(ms)
    ensures k < |ms| && ms[k].isAsync
    ensures forall j :: 0 <= j < k ==> !ms[j].isAsync
  {
    if ms[0].isAsync then 0
    else
      assert AnyAsync(ms[1..]) by {
        var i :| 0 <= i < |ms| && ms[i].isAsync;
        assert ms[1..][i - 1] == ms[i];
      }
      1 + FirstAsync(ms[1..])
  }
}
