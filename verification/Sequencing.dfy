/** Loops that process a list in order and stop at the first error. */
module Sequencing {
  import opened Rubric

  /** `for x in xs: out.append(f(x))`, abandoned at the first error. */
  function MapAll<A, B>(xs: seq<A>, f: A -> Result<B>): (out: Result<seq<B>>)
    ensures out.Ok? ==> |out.value| == |xs| && forall i | 0 <= i < |xs| :: f(xs[i]) == Ok(out.value[i])
  {
    if xs == [] then Ok([])
    else match MapAll(xs[..|xs| - 1], f)
      case Err(e) => Err(e)
      case Ok(done) => match f(xs[|xs| - 1])
        case Err(e) => Err(e)
        case Ok(y) => Ok(done + [y])
  }

  /** `for x in xs: s = f(s, x)`, abandoned at the first error. */
  function FoldAll<S, A>(s: S, xs: seq<A>, f: (S, A) -> Result<S>): Result<S> {
    if xs == [] then Ok(s)
    else match FoldAll(s, xs[..|xs| - 1], f)
      case Err(e) => Err(e)
      case Ok(done) => f(done, xs[|xs| - 1])
  }

  /** The error is the first one met. */
  lemma {:induction false} MapAllFirstError<A, B>(xs: seq<A>, f: A -> Result<B>, e: Error)
    ensures MapAll(xs, f) == Err(e) <==>
              exists k | 0 <= k < |xs| :: f(xs[k]) == Err(e) && forall m | 0 <= m < k :: f(xs[m]).Ok?
  {
    if xs != [] {
      var n := |xs| - 1;
      MapAllFirstError(xs[..n], f, e);
      MapAllDefined(xs[..n], f);
      if k :| 0 <= k < n && f(xs[k]) == Err(e) && forall m | 0 <= m < k :: f(xs[m]).Ok? {
        assert xs[..n][k] == xs[k];
      }
    }
  }

  /** No error at all exactly when every element is mapped. */
  lemma {:induction false} MapAllDefined<A, B>(xs: seq<A>, f: A -> Result<B>)
    ensures MapAll(xs, f).Ok? <==> forall i | 0 <= i < |xs| :: f(xs[i]).Ok?
  {
    if xs != [] {
      MapAllDefined(xs[..|xs| - 1], f);
      assert (forall i | 0 <= i < |xs| :: f(xs[i]).Ok?) ==> f(xs[|xs| - 1]).Ok?;
    }
  }

  lemma MapAllStep<A, B>(xs: seq<A>, i: nat, f: A -> Result<B>)
    requires i < |xs|
    ensures MapAll(xs[..i + 1], f) ==
      match MapAll(xs[..i], f)
      case Err(e) => Err(e)
      case Ok(done) => match f(xs[i]) case Err(e) => Err(e) case Ok(y) => Ok(done + [y])
  {
    assert xs[..i + 1][..i] == xs[..i] && xs[..i + 1][i] == xs[i];
  }

  lemma FoldAllStep<S, A>(s: S, xs: seq<A>, i: nat, f: (S, A) -> Result<S>)
    requires i < |xs|
    ensures FoldAll(s, xs[..i + 1], f) ==
      match FoldAll(s, xs[..i], f) case Err(e) => Err(e) case Ok(done) => f(done, xs[i])
  {
    assert xs[..i + 1][..i] == xs[..i] && xs[..i + 1][i] == xs[i];
  }

  /** An error on a prefix is the error of the whole loop. */
  lemma {:induction false} MapAllError<A, B>(xs: seq<A>, i: nat, f: A -> Result<B>, e: Error)
    requires i <= |xs| && MapAll(xs[..i], f) == Err(e)
    ensures MapAll(xs, f) == Err(e)
    decreases |xs| - i
  {
    if i < |xs| {
      MapAllStep(xs, i, f);
      MapAllError(xs, i + 1, f, e);
    } else {
      assert xs[..i] == xs;
    }
  }

  lemma {:induction false} FoldAllError<S, A>(s: S, xs: seq<A>, i: nat, f: (S, A) -> Result<S>, e: Error)
    requires i <= |xs| && FoldAll(s, xs[..i], f) == Err(e)
    ensures FoldAll(s, xs, f) == Err(e)
    decreases |xs| - i
  {
    if i < |xs| {
      FoldAllStep(s, xs, i, f);
      FoldAllError(s, xs, i + 1, f, e);
    } else {
      assert xs[..i] == xs;
    }
  }

  /** A property that every successful step keeps is kept by the loop. */
  lemma {:induction false} FoldAllInvariant<S(!new), A(!new)>(s: S, xs: seq<A>, f: (S, A) -> Result<S>, p: S -> bool)
    requires p(s)
    requires forall t: S, x: A | p(t) && x in xs && f(t, x).Ok? :: p(f(t, x).value)
    ensures FoldAll(s, xs, f).Ok? ==> p(FoldAll(s, xs, f).value)
  {
    if xs != [] {
      var init, last := xs[..|xs| - 1], xs[|xs| - 1];
      assert last in xs && forall x | x in init :: x in xs;
      FoldAllInvariant(s, init, f, p);
    }
  }

  /** `[x for x in xs if p(x)]` */
  function Select<A(!new)>(xs: seq<A>, p: A -> bool): (out: seq<A>)
    ensures forall x :: x in out <==> x in xs && p(x)
  {
    if xs == [] then []
    else
      assert xs == xs[..|xs| - 1] + [xs[|xs| - 1]];
      Select(xs[..|xs| - 1], p) + (if p(xs[|xs| - 1]) then [xs[|xs| - 1]] else [])
  }

  lemma {:induction false} SelectConcat<A(!new)>(xs: seq<A>, ys: seq<A>, p: A -> bool)
    ensures Select(xs + ys, p) == Select(xs, p) + Select(ys, p)
  {
    if ys == [] {
      assert xs + ys == xs;
    } else {
      assert (xs + ys)[..|xs + ys| - 1] == xs + ys[..|ys| - 1];
      SelectConcat(xs, ys[..|ys| - 1], p);
    }
  }

  /** Selecting twice, or selecting by predicates that agree on the list, in one step. */
  lemma {:induction false} SelectSelect<A(!new)>(xs: seq<A>, p: A -> bool, q: A -> bool, r: A -> bool)
    requires forall x | x in xs :: r(x) == (p(x) && q(x))
    ensures Select(Select(xs, p), q) == Select(xs, r)
  {
    if xs != [] {
      var init, last := xs[..|xs| - 1], xs[|xs| - 1];
      assert last in xs && forall x | x in init :: x in xs;
      SelectSelect(init, p, q, r);
      SelectConcat(Select(init, p), if p(last) then [last] else [], q);
      assert p(last) ==> Select([last], q) == if q(last) then [last] else [];
    }
  }

  lemma EmptyOrMember(ids: set<int>)
    ensures ids == {} || exists a :: a in ids
  {
    if forall a :: a !in ids { assert ids == {}; }
  }

  lemma MinExists(ids: set<int>)
    requires ids != {}
    ensures exists m :: m in ids && forall x | x in ids :: m <= x
  {
    EmptyOrMember(ids);
    var a :| a in ids;
    var others := ids - {a};
    var low := a;
    if others != {} {
      MinExists(others);
      var m :| m in others && forall x | x in others :: m <= x;
      if m < a { low := m; }
    }
    forall x | x in ids ensures low <= x { assert x == a || x in others; }
    assert low in ids;
  }

  function Least(ids: set<int>): (m: int)
    requires ids != {}
    ensures m in ids && forall x | x in ids :: m <= x
  {
    MinExists(ids);
    var m :| m in ids && forall x | x in ids :: m <= x;
    m
  }

  /** `sorted(ids)` of a set */
  function Ascending(ids: set<int>): (s: seq<int>)
    ensures forall x :: x in s <==> x in ids
    ensures forall i, j | 0 <= i < j < |s| :: s[i] < s[j]
    decreases ids
  {
    if ids == {} then []
    else
      var m := Least(ids);
      var rest := Ascending(ids - {m});
      assert forall i | 0 <= i < |rest| :: rest[i] in rest && rest[i] in ids - {m};
      [m] + rest
  }
}
