/**
 The actor generator: from a classified actor description it builds the
 script (the message enum, its `direct` dispatcher, its `play` run loop and
 its Debug impl) and the live proxy (its constructor, one forwarding method
 per actor method, identity accessors and traits), then splits every group
 into the fragments it emits and the ones withdrawn for hand editing.
 Fragments are abstract records, not Rust syntax.
 */
module Generate {
  import opened Actor
  import opened ChannelTable
  import opened EditSelect

  /** A script variant: its payload holds the input tuple if the method takes
      arguments, and a reply sender (of the given crate) if it returns. */
  datatype Variant = Variant(field: Ident, input: bool, output: Option<ReplyCrate>)

  /** A match arm of `direct`: calls `callee` with the captured input and, if
      `reply`, sends its result back; `awaited` when the method is async. */
  datatype DirectArm = DirectArm(field: Ident, callee: Ident, input: bool, reply: bool, awaited: bool)

  /** A match arm of the script's Debug impl: writes only the variant name. */
  datatype DebugArm = DebugArm(field: Ident)

  /** Where the proxy constructor starts the run loop. */
  datatype Spawner = Thread | SmolDetached | TokioTask | AsyncStdTask

  /** The pattern `play` receives with: tokio's receivers yield an Option,
      the others a Result. */
  datatype RecvPattern = SomePattern | OkPattern

  /** How `play` takes its messages: one receive per message, or whole
      batches from the condvar queue. */
  datatype PlayLoop = ReceiveEach(pattern: RecvPattern) | DrainBatches

  datatype Body =
    | Forward(field: Ident, input: bool, reply: bool)      // proxy method sending a message
    | PassThrough(target: Ident, callee: Ident, awaited: bool) // static method called directly
    | LiveNew(ctor: Ident, shape: NewShape, spawn: Spawner, batched: bool, withId: bool)
    | GetDebut | GetCount | SetName | GetName               // identity accessors
    | MintDebut                                            // the script's `debut` function
    | Direct(isAsync: bool, arms: seq<DirectArm>)
    | Play(isAsync: bool, loop: PlayLoop, awaited: bool)   // `awaited`: the receive and each `direct` call
    | DebugImpl(script: Ident, debugArms: seq<DebugArm>)    // no arms: writes the script name
    | EqOnDebut | EqMarker | ReversedPartialOrd | ReversedOrd
    | DropNotify                                           // live Drop waking the batching run loop

  type Fragment = Named<Body>

  datatype TypeDef =
    | ScriptEnum(name: Ident, variants: seq<Variant>)
    | LiveStruct(name: Ident, link: Link, withId: bool)

  /** Everything generated, before the edit split. */
  datatype Parts = Parts(
    caps: Caps,
    scriptDef: TypeDef,
    scriptMets: seq<Fragment>,
    scriptTrts: seq<Fragment>,
    liveDef: TypeDef,
    liveMets: seq<Fragment>,
    liveTrts: seq<Fragment>)

  datatype Section = Section(def: Option<TypeDef>, mets: seq<Fragment>, trts: seq<Fragment>)

  datatype Output = Output(script: Section, live: Section)

  /** The emitted code and the withdrawn (edit) code. */
  datatype Expansion = Expansion(code: Output, edit: Output)

  // ---------------------------------------------------------------------
  // The per-method pass

  /** The four lists the per-method loop pushes to. */
  datatype Pass = Pass(
    variants: seq<Variant>,
    directArms: seq<DirectArm>,
    debugArms: seq<DebugArm>,
    liveMets: seq<Fragment>)

  /** One iteration of the loop over the actor's methods. */
  function AddMethod(p: Pass, actor: Ident, reply: ReplyCrate, m: ActorMethod): Pass {
    var passThrough := Named(m.ident, PassThrough(actor, m.ident, m.liveAsync));
    match m.kind
    case Io =>
      if m.stat then p.(liveMets := p.liveMets + [passThrough])
      else Pass(p.variants + [Variant(m.field, true, Some(reply))],
                p.directArms + [DirectArm(m.field, m.ident, true, true, m.isAsync)],
                p.debugArms + [DebugArm(m.field)],
                p.liveMets + [Named(m.ident, Forward(m.field, true, true))])
    case I =>
      Pass(p.variants + [Variant(m.field, true, None)],
           p.directArms + [DirectArm(m.field, m.ident, true, false, m.isAsync)],
           p.debugArms + [DebugArm(m.field)],
           p.liveMets + [Named(m.ident, Forward(m.field, true, false))])
    case O =>
      if m.stat then p.(liveMets := p.liveMets + [passThrough])
      else Pass(p.variants + [Variant(m.field, false, Some(reply))],
                p.directArms + [DirectArm(m.field, m.ident, false, true, m.isAsync)],
                p.debugArms + [DebugArm(m.field)],
                p.liveMets + [Named(m.ident, Forward(m.field, false, true))])
    case Neither =>
      Pass(p.variants + [Variant(m.field, false, None)],
           p.directArms + [DirectArm(m.field, m.ident, false, false, m.isAsync)],
           p.debugArms + [DebugArm(m.field)],
           p.liveMets + [Named(m.ident, Forward(m.field, false, false))])
  }

  /** The loop over the methods, in order. */
  function MethodPass(ms: seq<ActorMethod>, actor: Ident, reply: ReplyCrate): Pass
    decreases |ms|
  {
    if ms == [] then Pass([], [], [], [])
    else AddMethod(MethodPass(ms[..|ms| - 1], actor, reply), actor, reply, ms[|ms| - 1])
  }

  /** The methods that become messages: all but the static ones with an
      output. */
  function Messaged(ms: seq<ActorMethod>): (r: seq<ActorMethod>)
    decreases |ms|
    ensures |r| <= |ms|
    ensures forall i :: 0 <= i < |r| ==> !IsPassThrough(r[i]) && r[i] in ms
    ensures forall m :: m in ms && !IsPassThrough(m) ==> m in r
  {
    if ms == [] then []
    else
      var init := Messaged(ms[..|ms| - 1]);
      assert forall m :: m in ms[..|ms| - 1] ==> m in ms;
      assert forall m :: m in ms ==> m in ms[..|ms| - 1] || m == ms[|ms| - 1];
      if IsPassThrough(ms[|ms| - 1]) then init else init + [ms[|ms| - 1]]
  }

  /** A variant, arm and debug arm describe method `m` with reply crate
      `reply`. */
  predicate DescribesMessage(m: ActorMethod, reply: ReplyCrate, v: Variant, a: DirectArm, d: DebugArm) {
    && v.field == m.field && a.field == m.field && d.field == m.field
    && (v.input <==> HasInput(m.kind)) && (a.input <==> HasInput(m.kind))
    && (v.output.Some? <==> HasOutput(m.kind)) && (a.reply <==> HasOutput(m.kind))
    && (v.output.Some? ==> v.output.value == reply)
    && a.callee == m.ident && (a.awaited <==> m.isAsync)
  }

  /** A proxy method describes method `m`: a direct call for a pass-through,
      otherwise a message carrying an input iff `m` takes one and a reply iff
      `m` returns. */
  predicate DescribesLive(m: ActorMethod, actor: Ident, f: Fragment) {
    && f.name == m.ident
    && (IsPassThrough(m) ==> f.body == PassThrough(actor, m.ident, m.liveAsync))
    && (!IsPassThrough(m) ==>
          f.body.Forward? && f.body.field == m.field
          && (f.body.input <==> HasInput(m.kind)) && (f.body.reply <==> HasOutput(m.kind)))
  }

  /** Exactly one variant, direct arm and debug arm per message method, in
      method order, each describing its method. */
  lemma {:induction false} MessagesDescribeMethods(ms: seq<ActorMethod>, actor: Ident, reply: ReplyCrate)
    decreases |ms|
    ensures var p := MethodPass(ms, actor, reply); var q := Messaged(ms);
      && |p.variants| == |q| && |p.directArms| == |q| && |p.debugArms| == |q|
      && forall i :: 0 <= i < |q| ==>
           DescribesMessage(q[i], reply, p.variants[i], p.directArms[i], p.debugArms[i])
  {
    if ms != [] {
      var init := ms[..|ms| - 1];
      var m := ms[|ms| - 1];
      MessagesDescribeMethods(init, actor, reply);
      var p0 := MethodPass(init, actor, reply);
      AddMethodMessages(p0, actor, reply, m);
      assert Messaged(ms) == if IsPassThrough(m) then Messaged(init) else Messaged(init) + [m];
    }
  }

  /** One iteration adds a message exactly for a method that is not a
      pass-through, and keeps what was there. */
  lemma AddMethodMessages(p: Pass, actor: Ident, reply: ReplyCrate, m: ActorMethod)
    ensures var r := AddMethod(p, actor, reply, m);
      if IsPassThrough(m) then
        r.variants == p.variants && r.directArms == p.directArms && r.debugArms == p.debugArms
      else
        && |r.variants| == |p.variants| + 1 && r.variants[..|p.variants|] == p.variants
        && |r.directArms| == |p.directArms| + 1 && r.directArms[..|p.directArms|] == p.directArms
        && |r.debugArms| == |p.debugArms| + 1 && r.debugArms[..|p.debugArms|] == p.debugArms
        && DescribesMessage(m, reply, r.variants[|p.variants|], r.directArms[|p.directArms|],
                            r.debugArms[|p.debugArms|])
  {
  }

  /** Exactly one proxy method per actor method, in method order. */
  lemma {:induction false} LiveMethodsDescribeMethods(ms: seq<ActorMethod>, actor: Ident, reply: ReplyCrate)
    decreases |ms|
    ensures var p := MethodPass(ms, actor, reply);
      && |p.liveMets| == |ms|
      && forall i :: 0 <= i < |ms| ==> DescribesLive(ms[i], actor, p.liveMets[i])
  {
    if ms != [] {
      var init := ms[..|ms| - 1];
      LiveMethodsDescribeMethods(init, actor, reply);
      var p0 := MethodPass(init, actor, reply);
      AddMethodLive(p0, actor, reply, ms[|ms| - 1]);
      var p := MethodPass(ms, actor, reply);
      forall i | 0 <= i < |ms|
        ensures DescribesLive(ms[i], actor, p.liveMets[i])
      {
        if i < |init| {
          assert ms[i] == init[i];
          assert p.liveMets[i] == p0.liveMets[i];
        }
      }
    }
  }

  /** One iteration adds exactly one proxy method, describing its method,
      and keeps the earlier ones. */
  lemma AddMethodLive(p: Pass, actor: Ident, reply: ReplyCrate, m: ActorMethod)
    ensures var r := AddMethod(p, actor, reply, m);
      && |r.liveMets| == |p.liveMets| + 1 && r.liveMets[..|p.liveMets|] == p.liveMets
      && DescribesLive(m, actor, r.liveMets[|p.liveMets|])
  {
  }

  // ---------------------------------------------------------------------
  // Assembling the script and the live proxy

  function SpawnerOf(lib: Lib): Spawner {
    match lib
    case Std => Thread
    case Smol => SmolDetached
    case Tokio => TokioTask
    case AsyncStd => AsyncStdTask
  }

  function IdentityMethods(id: bool): seq<Fragment> {
    if id then
      [Named("inter_get_debut", GetDebut), Named("inter_get_count", GetCount),
       Named("inter_set_name", SetName), Named("inter_get_name", GetName)]
    else []
  }

  function IdentityTraits(id: bool): seq<Fragment> {
    if id then
      [Named("PartialEq", EqOnDebut), Named("Eq", EqMarker),
       Named("PartialOrd", ReversedPartialOrd), Named("Ord", ReversedOrd)]
    else []
  }

  /** The live proxy's methods: the constructor first, then one per actor
      method in order, then the identity accessors. */
  function LiveMethods(spec: ActorSpec, ctor: Constructor, pass: seq<Fragment>): (r: seq<Fragment>)
    requires |pass| == |spec.methods|
    requires forall i :: 0 <= i < |spec.methods| ==> DescribesLive(spec.methods[i], spec.actorName, pass[i])
    ensures |r| == 1 + |spec.methods| + (if spec.id then 4 else 0)
    ensures r[0] == Named(ctor.ident, LiveNew(ctor.ident, ctor.shape, SpawnerOf(spec.lib),
                                              spec.channel == Inter, spec.id))
    ensures forall i :: 1 <= i <= |spec.methods| ==>
              DescribesLive(spec.methods[i - 1], spec.actorName, r[i])
    ensures spec.id ==> r[|r| - 4..] == IdentityMethods(true)
  {
    var liveNew := Named(ctor.ident, LiveNew(ctor.ident, ctor.shape, SpawnerOf(spec.lib),
                                             spec.channel == Inter, spec.id));
    var r := [liveNew] + pass + IdentityMethods(spec.id);
    assert forall i :: 1 <= i <= |pass| ==> r[i] == pass[i - 1];
    r
  }

  /** The script's methods: `debut` when identity is on, then `direct` and
      `play`. `direct` is async iff some actor method is; `play` is async iff
      the backend is not std, and drains batches iff the channel is the
      condvar queue. One await, present iff some actor method is async,
      follows every call of `direct` in `play`, and the receive too when
      `play` receives one message at a time. */
  function ScriptMethods(spec: ActorSpec, directArms: seq<DirectArm>): (r: seq<Fragment>)
    ensures |r| == (if spec.id then 3 else 2)
    ensures spec.id ==> r[0] == Named("debut", MintDebut)
    ensures var d := r[|r| - 2];
      d.name == "direct" && d.body.Direct? && d.body.arms == directArms
      && (d.body.isAsync <==> AnyAsync(spec.methods))
    ensures var p := r[|r| - 1];
      p.name == "play" && p.body.Play?
      && (p.body.isAsync <==> spec.lib != Std)
      && (p.body.awaited <==> AnyAsync(spec.methods))
      && (p.body.loop.DrainBatches? <==> spec.channel == Inter)
      && (p.body.loop.ReceiveEach? ==> (p.body.loop.pattern.SomePattern? <==> spec.lib == Tokio))
  {
    var anyAsync := AnyAsync(spec.methods);
    var playLoop :=
      if spec.channel == Inter then DrainBatches
      else ReceiveEach(if spec.lib == Tokio then SomePattern else OkPattern);
    var debut: seq<Fragment> := if spec.id then [Named("debut", MintDebut)] else [];
    debut + [Named("direct", Direct(anyAsync, directArms)),
             Named("play", Play(spec.lib != Std, playLoop, anyAsync))]
  }

  /** The live proxy's traits: the identity comparisons when identity is on,
      then Drop when the channel is the condvar queue. */
  function LiveTraits(spec: ActorSpec): (r: seq<Fragment>)
    ensures |r| == (if spec.id then 4 else 0) + (if spec.channel == Inter then 1 else 0)
    ensures spec.id ==> r[..4] == IdentityTraits(true)
    ensures spec.channel == Inter ==> r[|r| - 1] == Named("Drop", DropNotify)
  {
    IdentityTraits(spec.id) + (if spec.channel == Inter then [Named("Drop", DropNotify)] else [])
  }

  /** Builds every fragment of the script and the live proxy. */
  function Assemble(spec: ActorSpec, ctor: Constructor): (r: Parts)
    ensures r.caps == Channels(spec.lib, spec.channel)
    ensures r.scriptDef.ScriptEnum? && r.liveDef.LiveStruct?
    ensures r.scriptDef.name == ScriptName(CustomName(spec))
    ensures r.liveDef.name == LiveName(CustomName(spec))
    ensures |r.scriptMets| >= 2 && r.scriptMets[|r.scriptMets| - 2].body.Direct?
    ensures |r.scriptTrts| == 1 && r.scriptTrts[0].name == "Debug"
    ensures r.scriptTrts[0].body.DebugImpl? && r.scriptTrts[0].body.script == r.scriptDef.name
    ensures var q := Messaged(spec.methods); var arms := r.scriptMets[|r.scriptMets| - 2].body.arms;
      && |r.scriptDef.variants| == |q| && |arms| == |q| && |r.scriptTrts[0].body.debugArms| == |q|
      && forall i :: 0 <= i < |q| ==>
           DescribesMessage(q[i], r.caps.reply, r.scriptDef.variants[i], arms[i],
                            r.scriptTrts[0].body.debugArms[i])
    ensures |r.liveMets| == 1 + |spec.methods| + (if spec.id then 4 else 0)
    ensures r.liveMets[0].name == ctor.ident
    ensures forall i :: 1 <= i <= |spec.methods| ==>
              DescribesLive(spec.methods[i - 1], spec.actorName, r.liveMets[i])
    ensures r.liveDef.withId == spec.id && (r.liveDef.link == CondvarQueue <==> spec.channel == Inter)
  {
    var caps := Channels(spec.lib, spec.channel);
    var cust := CustomName(spec);
    var script := ScriptName(cust);
    var pass := MethodPass(spec.methods, spec.actorName, caps.reply);
    MessagesDescribeMethods(spec.methods, spec.actorName, caps.reply);
    LiveMethodsDescribeMethods(spec.methods, spec.actorName, caps.reply);
    Parts(
      caps,
      ScriptEnum(script, pass.variants),
      ScriptMethods(spec, pass.directArms),
      [Named("Debug", DebugImpl(script, pass.debugArms))],
      LiveStruct(LiveName(cust), caps.link, spec.id),
      LiveMethods(spec, ctor, pass.liveMets),
      LiveTraits(spec))
  }

  // ---------------------------------------------------------------------
  // The edit split and the whole generation

  /** Moves the selected fragments of each group, and each selected type
      definition, from the code to the edit output. The groups are selected
      in the source's order: script methods, script traits, live methods,
      live traits; the first unknown identifier aborts. */
  function Split(p: Parts, e: Edit): (r: Result<Expansion>)
    ensures r.Err? ==> r.error.UnknownEditTarget? && r.error.ident in Requested(e)
  {
    var sm :- Select(e.script.mets, p.scriptMets);
    var st :- Select(e.script.trts, p.scriptTrts);
    var lm :- Select(e.live.mets, p.liveMets);
    var lt :- Select(e.live.trts, p.liveTrts);
    Ok(Expansion(
      Output(Section(if e.script.def then None else Some(p.scriptDef), sm.rest, st.rest),
             Section(if e.live.def then None else Some(p.liveDef), lm.rest, lt.rest)),
      Output(Section(if e.script.def then Some(p.scriptDef) else None, sm.selected, st.selected),
             Section(if e.live.def then Some(p.liveDef) else None, lm.selected, lt.selected))))
  }

  /** Every identifier an edit selector names, in the order the groups are
      selected. */
  function Requested(e: Edit): (r: seq<Ident>)
    ensures forall x :: x in r <==>
      || (e.script.mets.Some? && x in e.script.mets.value)
      || (e.script.trts.Some? && x in e.script.trts.value)
      || (e.live.mets.Some? && x in e.live.mets.value)
      || (e.live.trts.Some? && x in e.live.trts.value)
  {
    Idents(e.script.mets) + Idents(e.script.trts) + Idents(e.live.mets) + Idents(e.live.trts)
  }

  function Idents(o: Option<seq<Ident>>): seq<Ident> {
    if o.Some? then o.value else []
  }

  /** The whole generation: the missing-constructor and async checks, then
      assembly and the edit split. */
  function Generate(spec: ActorSpec): (r: Result<Expansion>)
    ensures spec.ctor.None? ==>
              r == Err(if spec.isTrait then TraitWithoutNew(spec.actorName)
                       else MissingNew(spec.actorName))
    ensures spec.ctor.Some? && spec.lib == Std && AnyAsync(spec.methods) ==>
              r == Err(AsyncWithoutRuntime(spec.actorName,
                                           spec.methods[FirstAsync(spec.methods)].ident))
    ensures r.Ok? ==> spec.ctor.Some? && !(spec.lib == Std && AnyAsync(spec.methods))
    ensures r.Err? && r.error.UnknownEditTarget? ==>
              spec.ctor.Some? && !(spec.lib == Std && AnyAsync(spec.methods))
    ensures spec.ctor.Some? && !(spec.lib == Std && AnyAsync(spec.methods)) && r.Err? ==>
              r.error.UnknownEditTarget? && r.error.ident in Requested(spec.edit)
  {
    match spec.ctor
    case None =>
      Err(if spec.isTrait then TraitWithoutNew(spec.actorName) else MissingNew(spec.actorName))
    case Some(ctor) =>
      if spec.lib == Std && AnyAsync(spec.methods) then
        Err(AsyncWithoutRuntime(spec.actorName, spec.methods[FirstAsync(spec.methods)].ident))
      else
        Split(Assemble(spec, ctor), spec.edit)
  }

  /** Two lists partition a third: no fragment lost or duplicated, and the
      emitted ones in their original order. */
  ghost predicate Partitions(emitted: seq<Fragment>, withdrawn: seq<Fragment>, all: seq<Fragment>) {
    multiset(emitted) + multiset(withdrawn) == multiset(all) && IsSubsequence(emitted, all)
  }

  lemma SelectPartitions(edit: Option<seq<Ident>>, list: seq<Fragment>)
    requires Select(edit, list).Ok?
    ensures Partitions(Select(edit, list).value.rest, Select(edit, list).value.selected, list)
  {
    match edit
    case None =>
      SubsequenceRefl(list);
    case Some(ids) =>
      if ids == [] {
        assert Select(edit, list).value.rest == [];
        assert Embeds([], list, []);
      } else {
        SelectNamedPermutes(ids, list);
        SelectNamedKeepsOrder(ids, list);
      }
  }

  /** A successful generation puts every generated fragment in exactly one of
      the code and edit outputs, keeps the emitted ones in generation order,
      and places each type definition in exactly one of them. */
  lemma GeneratePartitions(spec: ActorSpec)
    ensures Generate(spec).Ok? ==>
      var p := Assemble(spec, spec.ctor.value); var x := Generate(spec).value;
      && Partitions(x.code.script.mets, x.edit.script.mets, p.scriptMets)
      && Partitions(x.code.script.trts, x.edit.script.trts, p.scriptTrts)
      && Partitions(x.code.live.mets, x.edit.live.mets, p.liveMets)
      && Partitions(x.code.live.trts, x.edit.live.trts, p.liveTrts)
      && (x.code.script.def.Some? != x.edit.script.def.Some?)
      && (x.code.live.def.Some? != x.edit.live.def.Some?)
  {
    if Generate(spec).Ok? {
      var p := Assemble(spec, spec.ctor.value);
      var e := spec.edit;
      SelectPartitions(e.script.mets, p.scriptMets);
      SelectPartitions(e.script.trts, p.scriptTrts);
      SelectPartitions(e.live.mets, p.liveMets);
      SelectPartitions(e.live.trts, p.liveTrts);
    }
  }

  /** With no edit selector the code output is everything generated and the
      edit output is empty. */
  lemma NoEditEmitsEverything(spec: ActorSpec)
    requires spec.ctor.Some? && !(spec.lib == Std && AnyAsync(spec.methods))
    requires spec.edit == Edit(EditGroup(false, None, None), EditGroup(false, None, None))
    ensures Generate(spec).Ok?
    ensures var p := Assemble(spec, spec.ctor.value); var x := Generate(spec).value;
      && x.code == Output(Section(Some(p.scriptDef), p.scriptMets, p.scriptTrts),
                          Section(Some(p.liveDef), p.liveMets, p.liveTrts))
      && x.edit == Output(Section(None, [], []), Section(None, [], []))
  {
  }
}
