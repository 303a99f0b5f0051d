/**
 Edit selection: the caller of the macro may withdraw named methods or
 traits from a generated group so as to write them by hand. `Select` splits
 a list of named fragments into the withdrawn ones (in the order asked for)
 and the ones still emitted (in their original order).
 */
module EditSelect {
  import opened Actor

  /** A generated fragment together with the identifier it is selected by. */
  datatype Named<B> = Named(name: Ident, body: B)

  datatype Selection<B> = Selection(selected: seq<Named<B>>, rest: seq<Named<B>>)

  function Names<B>(list: seq<Named<B>>): (r: seq<Ident>)
    ensures |r| == |list|
    ensures forall i :: 0 <= i < |list| ==> r[i] == list[i].name
  {
    seq(|list|, i requires 0 <= i < |list| => list[i].name)
  }

  /** The fragments of `list` named `x`, in order. */
  function OfName<B>(list: seq<Named<B>>, x: Ident): seq<Named<B>>
  {
    if list == [] then []
    else (if list[0].name == x then [list[0]] else []) + OfName(list[1..], x)
  }

  /** The position of the first fragment named `x`, if any. */
  function FirstIndex<B>(list: seq<Named<B>>, x: Ident): (r: Option<nat>)
    ensures r.Some? ==> r.value < |list| && list[r.value].name == x
    ensures r.Some? ==> forall j :: 0 <= j < r.value ==> list[j].name != x
    ensures r.None? ==> forall j :: 0 <= j < |list| ==> list[j].name != x
  {
    if list == [] then None
    else if list[0].name == x then Some(0)
    else match FirstIndex(list[1..], x)
      case None => None
      case Some(p) => Some(p + 1)
  }

  function RemoveAt<T>(s: seq<T>, p: nat): seq<T>
    requires p < |s|
  {
    s[..p] + s[p + 1..]
  }

  /** Moves, for each identifier in turn, the first remaining fragment with
      that name into the selection; aborts on an identifier that matches no
      remaining fragment. */
  function SelectNamed<B>(ids: seq<Ident>, list: seq<Named<B>>): (r: Result<Selection<B>>)
    decreases |ids|
    ensures r.Ok? ==> |r.value.selected| == |ids|
    ensures r.Ok? ==> forall i :: 0 <= i < |ids| ==> r.value.selected[i].name == ids[i]
    ensures r.Ok? ==> |r.value.selected| + |r.value.rest| == |list|
    ensures r.Err? ==> r.error.UnknownEditTarget? && r.error.ident in ids
  {
    if ids == [] then Ok(Selection([], list))
    else match FirstIndex(list, ids[0])
      case None => Err(UnknownEditTarget(ids[0]))
      case Some(p) =>
        match SelectNamed(ids[1..], RemoveAt(list, p))
        case Err(e) => Err(e)
        case Ok(s) => Ok(Selection([list[p]] + s.selected, s.rest))
  }

  /** The selector of one group: `None` withdraws nothing, `Some([])`
      withdraws everything, `Some(ids)` withdraws the named fragments. */
  function Select<B>(edit: Option<seq<Ident>>, list: seq<Named<B>>): (r: Result<Selection<B>>)
    ensures edit.None? ==> r == Ok(Selection([], list))
    ensures edit == Some([]) ==> r == Ok(Selection(list, []))
    ensures r.Ok? ==> |r.value.selected| + |r.value.rest| == |list|
    ensures r.Err? ==> edit.Some? && r.error.UnknownEditTarget? && r.error.ident in edit.value
  {
    match edit
    case None => Ok(Selection([], list))
    case Some(ids) =>
      if ids == [] then Ok(Selection(list, []))
      else SelectNamed(ids, list)
  }

  // ---------------------------------------------------------------------
  // Order preservation

  /** `f` maps each position of `a` to a position of `b` holding the same
      element, strictly increasingly. */
  ghost predicate Embeds<T>(a: seq<T>, b: seq<T>, f: seq<nat>) {
    && |f| == |a|
    && (forall i :: 0 <= i < |f| ==> f[i] < |b| && a[i] == b[f[i]])
    && (forall i, j :: 0 <= i < j < |f| ==> f[i] < f[j])
  }

  ghost predicate IsSubsequence<T>(a: seq<T>, b: seq<T>) {
    exists f :: Embeds(a, b, f)
  }

  lemma RemoveAtIsSubsequence<T>(s: seq<T>, p: nat)
    requires p < |s|
    ensures IsSubsequence(RemoveAt(s, p), s)
  {
    var r := RemoveAt(s, p);
    var f := seq(|r|, i requires 0 <= i < |r| => if i < p then i else i + 1);
    assert Embeds(r, s, f);
  }

  lemma SubsequenceTransitive<T>(a: seq<T>, b: seq<T>, c: seq<T>)
    requires IsSubsequence(a, b) && IsSubsequence(b, c)
    ensures IsSubsequence(a, c)
  {
    var f :| Embeds(a, b, f);
    var g :| Embeds(b, c, g);
    var h := seq(|f|, i requires 0 <= i < |f| => g[f[i]]);
    assert Embeds(a, c, h);
  }

  lemma SubsequenceRefl<T>(a: seq<T>)
    ensures IsSubsequence(a, a)
  {
    var f := seq(|a|, i requires 0 <= i < |a| => i);
    assert Embeds(a, a, f);
  }

  // ---------------------------------------------------------------------
  // Facts about removing one fragment

  lemma OfNameAppend<B>(a: seq<Named<B>>, b: seq<Named<B>>, x: Ident)
    ensures OfName(a + b, x) == OfName(a, x) + OfName(b, x)
  {
    if a == [] {
      assert a + b == b;
    } else {
      assert (a + b)[1..] == a[1..] + b;
      OfNameAppend(a[1..], b, x);
    }
  }

  /** Removing the first fragment named `x` removes the head of the
      `x`-fragments and no fragment of any other name. */
  lemma OfNameRemoveFirst<B>(list: seq<Named<B>>, p: nat, y: Ident)
    requires p < |list|
    requires forall j :: 0 <= j < p ==> list[j].name != list[p].name
    ensures y != list[p].name ==> OfName(RemoveAt(list, p), y) == OfName(list, y)
    ensures y == list[p].name ==>
              OfName(list, y) == [list[p]] + OfName(RemoveAt(list, p), y)
  {
    var x := list[p].name;
    assert list == list[..p] + ([list[p]] + list[p + 1..]);
    OfNameAppend(list[..p], [list[p]] + list[p + 1..], y);
    OfNameAppend([list[p]], list[p + 1..], y);
    OfNameAppend(list[..p], list[p + 1..], y);
    assert OfName([list[p]], y) == (if x == y then [list[p]] else []) by {
      assert [list[p]][1..] == [];
    }
    if y == x {
      OfNameAbsent(list[..p], x);
    }
  }

  lemma OfNameAbsent<B>(list: seq<Named<B>>, x: Ident)
    requires forall j :: 0 <= j < |list| ==> list[j].name != x
    ensures OfName(list, x) == []
  {
    if list != [] {
      OfNameAbsent(list[1..], x);
    }
  }

  lemma NamesRemoveAt<B>(list: seq<Named<B>>, p: nat)
    requires p < |list|
    ensures multiset(Names(RemoveAt(list, p))) == multiset(Names(list)) - multiset{list[p].name}
  {
    var n := Names(list);
    var r := Names(RemoveAt(list, p));
    var m := n[..p] + n[p + 1..];
    assert |r| == |m|;
    forall i | 0 <= i < |m|
      ensures r[i] == m[i]
    {
      if i < p {
        assert RemoveAt(list, p)[i] == list[i];
      } else {
        assert RemoveAt(list, p)[i] == list[i + 1];
      }
    }
    assert r == m;
    MultisetRemoveAt(n, p);
  }

  lemma MultisetRemoveAt<T>(s: seq<T>, p: nat)
    requires p < |s|
    ensures multiset(RemoveAt(s, p)) == multiset(s) - multiset{s[p]}
  {
    assert s == s[..p] + [s[p]] + s[p + 1..];
  }

  // ---------------------------------------------------------------------
  // The properties of `SelectNamed`

  /** Selection succeeds exactly when every identifier has, counting
      repetitions, as many fragments of that name to take: an identifier with
      no match, or one repeated more often than its fragments, aborts. */
  lemma {:induction false} SelectNamedOkIff<B>(ids: seq<Ident>, list: seq<Named<B>>)
    decreases |ids|
    ensures SelectNamed(ids, list).Ok? <==> multiset(ids) <= multiset(Names(list))
  {
    if ids != [] {
      var x := ids[0];
      assert ids == [x] + ids[1..];
      assert multiset(ids) == multiset{x} + multiset(ids[1..]);
      match FirstIndex(list, x)
      case None =>
        assert x !in multiset(Names(list));
      case Some(p) =>
        var rest := RemoveAt(list, p);
        SelectNamedOkIff(ids[1..], rest);
        NamesRemoveAt(list, p);
        assert x in multiset(Names(list)) by {
          assert Names(list)[p] == x;
        }
    }
  }

  /** One step of a successful selection: the first identifier's earliest
      fragment heads the selection, and the rest is selected from the list
      without it. */
  lemma SelectNamedStep<B>(ids: seq<Ident>, list: seq<Named<B>>)
    requires ids != [] && SelectNamed(ids, list).Ok?
    ensures FirstIndex(list, ids[0]).Some?
    ensures var p := FirstIndex(list, ids[0]).value;
      && SelectNamed(ids[1..], RemoveAt(list, p)).Ok?
      && SelectNamed(ids, list).value.selected
         == [list[p]] + SelectNamed(ids[1..], RemoveAt(list, p)).value.selected
      && SelectNamed(ids, list).value.rest == SelectNamed(ids[1..], RemoveAt(list, p)).value.rest
  {
  }

  /** A successful selection takes, for every name, the earliest fragments of
      that name: the fragments named `y` that were withdrawn, followed by those
      still emitted, are exactly the fragments named `y` of the original
      list, in order. */
  lemma {:induction false} SelectNamedEarliest<B>(ids: seq<Ident>, list: seq<Named<B>>, y: Ident)
    requires SelectNamed(ids, list).Ok?
    decreases |ids|
    ensures var s := SelectNamed(ids, list).value;
      OfName(s.selected, y) + OfName(s.rest, y) == OfName(list, y)
  {
    if ids != [] {
      SelectNamedStep(ids, list);
      var p := FirstIndex(list, ids[0]).value;
      var rem := RemoveAt(list, p);
      var t := SelectNamed(ids[1..], rem).value;
      SelectNamedEarliest(ids[1..], rem, y);
      var s := SelectNamed(ids, list).value;
      OfNameAppend([list[p]], t.selected, y);
      assert OfName([list[p]], y) == (if list[p].name == y then [list[p]] else []) by {
        assert [list[p]][1..] == [];
      }
      OfNameRemoveFirst(list, p, y);
      if list[p].name == y {
        calc {
          OfName(s.selected, y) + OfName(s.rest, y);
          ([list[p]] + OfName(t.selected, y)) + OfName(t.rest, y);
          [list[p]] + (OfName(t.selected, y) + OfName(t.rest, y));
          [list[p]] + OfName(rem, y);
        }
      } else {
        assert OfName(s.selected, y) == OfName(t.selected, y);
      }
    }
  }

  /** A successful selection neither loses nor duplicates a fragment. */
  lemma {:induction false} SelectNamedPermutes<B>(ids: seq<Ident>, list: seq<Named<B>>)
    requires SelectNamed(ids, list).Ok?
    decreases |ids|
    ensures var s := SelectNamed(ids, list).value;
      multiset(s.selected) + multiset(s.rest) == multiset(list)
  {
    if ids != [] {
      SelectNamedStep(ids, list);
      var p := FirstIndex(list, ids[0]).value;
      var rem := RemoveAt(list, p);
      var t := SelectNamed(ids[1..], rem).value;
      SelectNamedPermutes(ids[1..], rem);
      var s := SelectNamed(ids, list).value;
      MultisetRemoveAt(list, p);
      assert multiset(s.selected) == multiset{list[p]} + multiset(t.selected);
      AddBack(multiset(list), list[p]);
      assert multiset(s.selected) + multiset(s.rest)
          == multiset{list[p]} + (multiset(t.selected) + multiset(t.rest));
    }
  }

  lemma AddBack<T>(m: multiset<T>, x: T)
    requires x in m
    ensures multiset{x} + (m - multiset{x}) == m
  {
  }

  /** The fragments still emitted keep their original relative order. */
  lemma {:induction false} SelectNamedKeepsOrder<B>(ids: seq<Ident>, list: seq<Named<B>>)
    requires SelectNamed(ids, list).Ok?
    decreases |ids|
    ensures IsSubsequence(SelectNamed(ids, list).value.rest, list)
  {
    if ids == [] {
      SubsequenceRefl(list);
    } else {
      SelectNamedStep(ids, list);
      var p := FirstIndex(list, ids[0]).value;
      var rem := RemoveAt(list, p);
      SelectNamedKeepsOrder(ids[1..], rem);
      RemoveAtIsSubsequence(list, p);
      SubsequenceTransitive(SelectNamed(ids[1..], rem).value.rest, rem, list);
    }
  }

  /** Corollary: asking twice for a name that only one fragment carries
      aborts. */
  lemma DuplicateAborts<B>(ids: seq<Ident>, list: seq<Named<B>>, x: Ident)
    ensures multiset(Names(list))[x] == 1 && multiset(ids)[x] >= 2 ==> SelectNamed(ids, list).Err?
  {
    SelectNamedOkIff(ids, list);
  }
}
