/**
 Identity of live handles when the `id` option is on. Each handle carries
 the shared `debut` instant of its actor and a free-form `name` label.
 Equality and ordering look at `debut` only, and the ordering is reversed:
 the earlier-minted actor compares greater. The handles of one actor share
 one reference-counted `debut`, whose count is the number of live handles.
 */
module Identity {
  import opened Actor
  import Debut

  datatype Ordering = Less | Equal | Greater

  /** Ordering of two instants, as the standard `cmp` on them. */
  function CompareInstants(a: int, b: int): Ordering {
    if a < b then Less else if a == b then Equal else Greater
  }

  datatype Handle = Handle(debut: int, name: string)

  /** The generated `PartialEq::eq`. */
  predicate Eq(a: Handle, b: Handle) {
    a.debut == b.debut
  }

  /** The generated `Ord::cmp`: the other handle's instant compared with
      this one's. */
  function Cmp(a: Handle, b: Handle): (r: Ordering)
    ensures r == Equal <==> Eq(a, b)
    ensures r == Greater <==> a.debut < b.debut
    ensures r == Less <==> b.debut < a.debut
  {
    CompareInstants(b.debut, a.debut)
  }

  /** The generated `PartialOrd::partial_cmp`: always defined, and agreeing
      with `cmp`. */
  function PartialCmp(a: Handle, b: Handle): (r: Option<Ordering>)
    ensures r == Some(Cmp(a, b))
  {
    Some(CompareInstants(b.debut, a.debut))
  }

  /** The label never takes part in comparisons. */
  lemma NameIgnored(a: Handle, b: Handle, n: string, m: string)
    ensures Eq(a.(name := n), b.(name := m)) <==> Eq(a, b)
    ensures Cmp(a.(name := n), b.(name := m)) == Cmp(a, b)
  {
  }

  /** `Cmp` is a total order consistent with `Eq`: antisymmetric and
      transitive. */
  lemma CmpIsTotalOrder(a: Handle, b: Handle, c: Handle)
    ensures Cmp(a, b) == Greater <==> Cmp(b, a) == Less
    ensures Cmp(a, b) == Equal <==> Cmp(b, a) == Equal
    ensures Cmp(a, b) == Greater && Cmp(b, c) == Greater ==> Cmp(a, c) == Greater
  {
  }

  /** Handles of actors constructed one after another, each with a fresh
      `debut`, compare in reverse construction order: the first constructed
      is the greatest, whatever their labels. */
  lemma ConstructionOrder(last: int, clock: seq<int>, n: nat, names: seq<string>)
    requires Debut.MintSeries(last, clock, n).Some?
    requires |names| == n
    ensures var d := Debut.MintSeries(last, clock, n).value.debuts;
      |d| == n && forall i, j :: 0 <= i < j < n ==>
        Cmp(Handle(d[i], names[i]), Handle(d[j], names[j])) == Greater
        && !Eq(Handle(d[i], names[i]), Handle(d[j], names[j]))
  {
    Debut.SeriesStrictlyIncreasing(last, clock, n);
  }

  /** The handles of one actor: the shared instant and the number of live
      handles holding it (what `inter_get_count` reports). */
  datatype Family = Family(debut: int, count: nat)

  /** A freshly constructed actor has one handle. */
  function Construct(debut: int): Family {
    Family(debut, 1)
  }

  /** Cloning a live handle shares its instant and adds a reference. */
  function CloneHandle(f: Family): (r: Family)
    requires f.count > 0
    ensures r.debut == f.debut && r.count == f.count + 1
  {
    f.(count := f.count + 1)
  }

  /** Dropping a handle removes its reference. */
  function DropHandle(f: Family): (r: Family)
    requires f.count > 0
    ensures r.debut == f.debut && r.count + 1 == f.count
  {
    f.(count := f.count - 1)
  }

  function CloneTimes(f: Family, k: nat): (r: Family)
    requires f.count > 0
    decreases k
    ensures r.count >= f.count
  {
    if k == 0 then f else CloneHandle(CloneTimes(f, k - 1))
  }

  /** Cloning a new handle `k` times leaves `k + 1` live handles, all equal
      to one another. */
  lemma {:induction false} CloneCount(debut: int, k: nat)
    decreases k
    ensures CloneTimes(Construct(debut), k) == Family(debut, k + 1)
  {
    if k > 0 {
      CloneCount(debut, k - 1);
    }
  }

  datatype HandleOp = Clone | Drop

  /** Clones and drops of the handles of one actor, in order; None once a
      clone or a drop finds no live handle to act on. */
  function ApplyOps(f: Family, ops: seq<HandleOp>): Option<Family>
    decreases |ops|
  {
    if ops == [] then Some(f)
    else
      match ApplyOps(f, ops[..|ops| - 1])
      case None => None
      case Some(g) =>
        if g.count == 0 then None
        else if ops[|ops| - 1] == Clone then Some(CloneHandle(g))
        else Some(DropHandle(g))
  }

  /** Every operation of `ops` finds a live handle: before each one, fewer
      handles have been dropped than made. */
  ghost predicate Feasible(ops: seq<HandleOp>) {
    forall k :: 0 <= k < |ops| ==> multiset(ops[..k])[Drop] < multiset(ops[..k])[Clone] + 1
  }

  /** Over any clones and drops of a new handle, the count `inter_get_count`
      reports is one plus the clones minus the drops, and the instant never
      changes. The sequence is possible exactly when every clone and every
      drop finds a live handle. */
  lemma {:induction false} HandleCount(debut: int, ops: seq<HandleOp>)
    decreases |ops|
    ensures ApplyOps(Construct(debut), ops).Some? <==> Feasible(ops)
    ensures ApplyOps(Construct(debut), ops).Some? ==>
      var f := ApplyOps(Construct(debut), ops).value;
      f.debut == debut && f.count + multiset(ops)[Drop] == 1 + multiset(ops)[Clone]
  {
    if ops == [] {
      assert ops[..0] == [];
    } else {
      var init := ops[..|ops| - 1];
      HandleCount(debut, init);
      FeasibleSnoc(init, ops[|ops| - 1]);
      assert init + [ops[|ops| - 1]] == ops;
    }
  }

  /** Appending one operation keeps every earlier prefix. */
  lemma FeasibleSnoc(init: seq<HandleOp>, x: HandleOp)
    ensures Feasible(init + [x]) <==>
      Feasible(init) && multiset(init)[Drop] < multiset(init)[Clone] + 1
    ensures multiset(init + [x]) == multiset(init) + multiset{x}
  {
    var ops := init + [x];
    assert forall k :: 0 <= k <= |init| ==> ops[..k] == init[..k];
    assert ops[..|init|] == init;
    assert ops[..|ops|] == ops;
    if Feasible(ops) {
      forall k | 0 <= k < |init|
        ensures multiset(init[..k])[Drop] < multiset(init[..k])[Clone] + 1
      {
        assert ops[..k] == init[..k];
      }
    }
  }

  /** Once the only handle is dropped, none is left to clone. */
  lemma NoCloneAfterLastDrop(debut: int)
    ensures ApplyOps(Construct(debut), [Drop]) == Some(Family(debut, 0))
    ensures ApplyOps(Construct(debut), [Drop, Clone]).None?
  {
  }

  /** A clone is equal to its original even after relabelling. */
  lemma CloneEqualsOriginal(h: Handle, tag: string)
    ensures Eq(h, h.(name := tag)) && Cmp(h, h.(name := tag)) == Equal
  {
  }
}
