/** The structural comparison of two account snapshots (eval/customer_outcome_comparison.py). */
module Diff {
  import opened Rubric
  import opened Sequencing

  /** Dictionary keys: only equality and order matter. */
  type Key = int

  /** Nested JSON-like values. Atoms stand for all scalars other than None. */
  datatype Value = Null | Atom(text: string) | Dict(fields: map<Key, Value>) | Items(tuple: bool, items: seq<Value>)

  datatype Step = At(key: Key) | Nth(index: nat)

  type Path = seq<Step>

  /** `a.get(k)` */
  function Get(v: Value, k: Key): Value
    requires v.Dict?
  {
    if k in v.fields then v.fields[k] else Null
  }

  function Prefixed(s: Step, paths: seq<Path>): (out: seq<Path>)
    ensures |out| == |paths| && forall i | 0 <= i < |out| :: out[i] == [s] + paths[i]
  {
    seq(|paths|, i requires 0 <= i < |paths| => [s] + paths[i])
  }

  /** `_changed_paths`, with paths as lists of steps. */
  function Changed(a: Value, b: Value): seq<Path>
    decreases a, b, 1, 0
  {
    if a.Dict? && b.Dict? then OfKeys(a, b, Ascending(a.fields.Keys + b.fields.Keys))
    else if a.Items? && b.Items? then
      if |a.items| != |b.items| then [[]] else OfItems(a, b, |a.items|)
    else if a == b then [] else [[]]
  }

  /** `_changed_paths(a.get(k), b.get(k))`; a missing key reads as None. */
  function AtKey(a: Value, b: Value, k: Key): seq<Path>
    requires a.Dict? && b.Dict?
    decreases a, b, 0, 0
  {
    if k in a.fields && k in b.fields then Changed(a.fields[k], b.fields[k])
    else if Get(a, k) == Get(b, k) then [] else [[]]
  }

  function OfKeys(a: Value, b: Value, keys: seq<Key>): seq<Path>
    requires a.Dict? && b.Dict?
    decreases a, b, 0, |keys|
  {
    if keys == [] then []
    else OfKeys(a, b, keys[..|keys| - 1]) + Prefixed(At(keys[|keys| - 1]), AtKey(a, b, keys[|keys| - 1]))
  }

  function OfItems(a: Value, b: Value, n: nat): seq<Path>
    requires a.Items? && b.Items? && n <= |a.items| && n <= |b.items|
    decreases a, b, 0, n
  {
    if n == 0 then [] else OfItems(a, b, n - 1) + Prefixed(Nth(n - 1), Changed(a.items[n - 1], b.items[n - 1]))
  }

  lemma AtKeyIsChanged(a: Value, b: Value, k: Key)
    requires a.Dict? && b.Dict?
    ensures AtKey(a, b, k) == Changed(Get(a, k), Get(b, k))
  {
  }

  // ----- Locations -----

  function Child(v: Value, s: Step): Option<Value> {
    match s
    case At(k) => if v.Dict? then Some(Get(v, k)) else None
    case Nth(i) => if v.Items? && i < |v.items| then Some(v.items[i]) else None
  }

  /** The value at a location; a key no dictionary holds is a location with value None. */
  function Locate(v: Value, p: Path): Option<Value>
    decreases |p|
  {
    if p == [] then Some(v)
    else if Child(v, p[0]) == None then None
    else Locate(Child(v, p[0]).value, p[1..])
  }

  /** Two values that differ without looking inside: not two dictionaries, not two lists of one
      length, and not the same scalar. */
  predicate TopDiffers(x: Value, y: Value) {
    && !(x.Dict? && y.Dict?)
    && !(x.Items? && y.Items? && |x.items| == |y.items|)
    && !(x == y && (x.Null? || x.Atom?))
  }

  predicate DiffersAt(a: Value, b: Value, p: Path) {
    Locate(a, p).Some? && Locate(b, p).Some? && TopDiffers(Locate(a, p).value, Locate(b, p).value)
  }

  predicate DiffersAbove(a: Value, b: Value, p: Path) { exists n | 0 <= n < |p| :: DiffersAt(a, b, p[..n]) }

  lemma {:induction false} KeyMembers(a: Value, b: Value, keys: seq<Key>, p: Path)
    requires a.Dict? && b.Dict?
    ensures p in OfKeys(a, b, keys) <==>
              p != [] && p[0].At? && p[0].key in keys && p[1..] in Changed(Get(a, p[0].key), Get(b, p[0].key))
  {
    if keys != [] {
      var init, k := keys[..|keys| - 1], keys[|keys| - 1];
      assert keys == init + [k];
      KeyMembers(a, b, init, p);
      AtKeyIsChanged(a, b, k);
      PrefixedMembers(At(k), AtKey(a, b, k), p);
    }
  }

  lemma PrefixedMembers(s: Step, paths: seq<Path>, p: Path)
    ensures p in Prefixed(s, paths) <==> p != [] && p[0] == s && p[1..] in paths
  {
    if p != [] && p[0] == s && p[1..] in paths {
      var i :| 0 <= i < |paths| && paths[i] == p[1..];
      assert Prefixed(s, paths)[i] == p;
    }
  }

  lemma {:induction false} ItemMembers(a: Value, b: Value, n: nat, p: Path)
    requires a.Items? && b.Items? && n <= |a.items| && n <= |b.items|
    ensures p in OfItems(a, b, n) <==>
              p != [] && p[0].Nth? && p[0].index < n && p[1..] in Changed(a.items[p[0].index], b.items[p[0].index])
  {
    hide Changed;
    if n > 0 {
      ItemMembers(a, b, n - 1, p);
      PrefixedMembers(Nth(n - 1), Changed(a.items[n - 1], b.items[n - 1]), p);
    }
  }

  /** What the report contains, one level at a time. */
  lemma ChangedMembers(a: Value, b: Value, p: Path)
    ensures p == [] ==> (p in Changed(a, b) <==> TopDiffers(a, b))
    ensures p != [] ==>
              (p in Changed(a, b) <==>
                !TopDiffers(a, b) && Child(a, p[0]).Some? && Child(b, p[0]).Some?
                && p[1..] in Changed(Child(a, p[0]).value, Child(b, p[0]).value))
  {
    if a.Dict? && b.Dict? {
      KeyMembers(a, b, Ascending(a.fields.Keys + b.fields.Keys), p);
      if p != [] && p[0].At? { AtKeyIsChanged(a, b, p[0].key); }
    } else if a.Items? && b.Items? && |a.items| == |b.items| {
      ItemMembers(a, b, |a.items|, p);
    } else {
      assert p in Changed(a, b) <==> p == [] && TopDiffers(a, b);
    }
  }

  lemma AboveStep(a: Value, b: Value, p: Path)
    requires p != [] && Child(a, p[0]).Some? && Child(b, p[0]).Some?
    ensures DiffersAt(a, b, p) <==> DiffersAt(Child(a, p[0]).value, Child(b, p[0]).value, p[1..])
    ensures DiffersAbove(a, b, p) <==>
              TopDiffers(a, b) || DiffersAbove(Child(a, p[0]).value, Child(b, p[0]).value, p[1..])
  {
    var x, y := Child(a, p[0]).value, Child(b, p[0]).value;
    assert p[..0] == [] && (DiffersAt(a, b, p[..0]) <==> TopDiffers(a, b));
    forall n | 0 < n <= |p| ensures DiffersAt(a, b, p[..n]) <==> DiffersAt(x, y, p[1..][..n - 1]) {
      assert p[..n][0] == p[0] && p[..n][1..] == p[1..][..n - 1];
    }
    if m :| 0 <= m < |p| - 1 && DiffersAt(x, y, p[1..][..m]) {
      assert DiffersAt(a, b, p[..m + 1]);
    }
  }

  /** The report is exact: it holds the locations, present on both sides, where the values differ
      outright and do so nowhere above. */
  lemma {:induction false} ReportedExactly(a: Value, b: Value, p: Path)
    ensures p in Changed(a, b) <==> DiffersAt(a, b, p) && !DiffersAbove(a, b, p)
    decreases |p|
  {
    ChangedMembers(a, b, p);
    if p != [] {
      if Child(a, p[0]).Some? && Child(b, p[0]).Some? {
        ReportedExactly(Child(a, p[0]).value, Child(b, p[0]).value, p[1..]);
        AboveStep(a, b, p);
      }
    }
  }

  // ----- Laws of the report -----

  lemma {:induction false} ChangedSymmetric(a: Value, b: Value)
    ensures Changed(a, b) == Changed(b, a)
    decreases a, b, 1, 0
  {
    if a.Dict? && b.Dict? {
      assert a.fields.Keys + b.fields.Keys == b.fields.Keys + a.fields.Keys;
      KeysSymmetric(a, b, Ascending(a.fields.Keys + b.fields.Keys));
    } else if a.Items? && b.Items? && |a.items| == |b.items| {
      ItemsSymmetric(a, b, |a.items|);
    }
  }

  lemma {:induction false} KeysSymmetric(a: Value, b: Value, keys: seq<Key>)
    requires a.Dict? && b.Dict?
    ensures OfKeys(a, b, keys) == OfKeys(b, a, keys)
    decreases a, b, 0, |keys|
  {
    hide Changed;
    if keys != [] {
      var k := keys[|keys| - 1];
      KeysSymmetric(a, b, keys[..|keys| - 1]);
      if k in a.fields && k in b.fields { ChangedSymmetric(a.fields[k], b.fields[k]); }
    }
  }

  lemma {:induction false} ItemsSymmetric(a: Value, b: Value, n: nat)
    requires a.Items? && b.Items? && n <= |a.items| && n <= |b.items|
    ensures OfItems(a, b, n) == OfItems(b, a, n)
    decreases a, b, 0, n
  {
    hide Changed;
    if n > 0 {
      ItemsSymmetric(a, b, n - 1);
      ChangedSymmetric(a.items[n - 1], b.items[n - 1]);
    }
  }

  /** A value with its None entries dropped and its tuples read as lists, all the way down. */
  function Normal(v: Value): Value {
    match v
    case Null => Null
    case Atom(_) => v
    case Dict(m) => Dict(map k | k in m && m[k] != Null :: Normal(m[k]))
    case Items(_, xs) => Items(false, seq(|xs|, i requires 0 <= i < |xs| => Normal(xs[i])))
  }

  lemma NormalNull(v: Value)
    ensures Normal(v) == Null <==> v == Null
  {
  }

  lemma NormalKeys(a: Value, b: Value)
    requires a.Dict? && b.Dict?
    ensures Normal(a) == Normal(b) <==>
                forall k | k in a.fields.Keys + b.fields.Keys :: Normal(Get(a, k)) == Normal(Get(b, k))
  {
    forall k ensures NormalGet(a, k) == Normal(Get(a, k)) && NormalGet(b, k) == Normal(Get(b, k)) {
      NormalGetIs(a, k);
      NormalGetIs(b, k);
    }
    NormalByKeys(a, b);
    hide Normal;
    hide NormalGet;
    forall k | k !in a.fields.Keys + b.fields.Keys ensures Get(a, k) == Get(b, k) { }
    hide Get;
  }

  /** The entry of a normalised dictionary, None where there is none. */
  function NormalGet(v: Value, k: Key): Value
    requires v.Dict?
  {
    if k in Normal(v).fields then Normal(v).fields[k] else Null
  }

  lemma NormalGetIs(v: Value, k: Key)
    requires v.Dict?
    ensures NormalGet(v, k) == Normal(Get(v, k))
    ensures k in Normal(v).fields <==> NormalGet(v, k) != Null
  {
    NormalNull(Get(v, k));
  }

  lemma NormalByKeys(a: Value, b: Value)
    requires a.Dict? && b.Dict?
    ensures Normal(a) == Normal(b) <==> forall k :: NormalGet(a, k) == NormalGet(b, k)
  {
    if forall k :: NormalGet(a, k) == NormalGet(b, k) {
      var m, n := Normal(a).fields, Normal(b).fields;
      forall k ensures k in m <==> k in n { NormalGetIs(a, k); NormalGetIs(b, k); }
      forall k | k in m ensures m[k] == n[k] { assert NormalGet(a, k) == NormalGet(b, k); }
      assert m == n;
    }
  }

  lemma NormalItems(a: Value, b: Value)
    requires a.Items? && b.Items? && |a.items| == |b.items|
    ensures Normal(a) == Normal(b) <==> forall i | 0 <= i < |a.items| :: Normal(a.items[i]) == Normal(b.items[i])
  {
    var x, y := Normal(a).items, Normal(b).items;
    if x == y {
      forall i | 0 <= i < |a.items| ensures Normal(a.items[i]) == Normal(b.items[i]) { assert x[i] == y[i]; }
    }
  }

  /** An empty report means exactly: equal up to None for a missing key and list for tuple. */
  lemma {:induction false} EmptyIffEquivalent(a: Value, b: Value)
    ensures Changed(a, b) == [] <==> Normal(a) == Normal(b)
    decreases a, b, 1, 0
  {
    if a.Dict? && b.Dict? {
      NormalKeys(a, b);
      EmptyKeys(a, b, Ascending(a.fields.Keys + b.fields.Keys));
    } else if a.Items? && b.Items? && |a.items| == |b.items| {
      NormalItems(a, b);
      EmptyItems(a, b, |a.items|);
    } else if a.Items? && b.Items? {
      assert |Normal(a).items| == |a.items| && |Normal(b).items| == |b.items|;
    }
  }

  lemma {:induction false} EmptyKeys(a: Value, b: Value, keys: seq<Key>)
    requires a.Dict? && b.Dict?
    ensures OfKeys(a, b, keys) == [] <==> forall k | k in keys :: Normal(Get(a, k)) == Normal(Get(b, k))
    decreases a, b, 0, |keys|
  {
    if keys != [] {
      var init, k := keys[..|keys| - 1], keys[|keys| - 1];
      assert keys == init + [k];
      EmptyKeys(a, b, init);
      if k in a.fields && k in b.fields {
        EmptyIffEquivalent(a.fields[k], b.fields[k]);
      } else {
        NormalNull(Get(a, k));
        NormalNull(Get(b, k));
      }
      assert AtKey(a, b, k) == [] <==> Normal(Get(a, k)) == Normal(Get(b, k));
    }
  }

  lemma {:induction false} EmptyItems(a: Value, b: Value, n: nat)
    requires a.Items? && b.Items? && n <= |a.items| && n <= |b.items|
    ensures OfItems(a, b, n) == [] <==> forall i | 0 <= i < n :: Normal(a.items[i]) == Normal(b.items[i])
    decreases a, b, 0, n
  {
    hide Changed;
    hide Normal;
    if n > 0 {
      EmptyItems(a, b, n - 1);
      EmptyIffEquivalent(a.items[n - 1], b.items[n - 1]);
    }
  }

  predicate Prefix(p: Path, q: Path) { |p| <= |q| && q[..|p|] == p }

  /** The report says nothing at, above or below the location. */
  predicate Untouched(a: Value, b: Value, q: Path) {
    forall p | p in Changed(a, b) :: !Prefix(p, q) && !Prefix(q, p)
  }

  lemma PrefixStep(p: Path, q: Path)
    requires q != []
    ensures Prefix([q[0]] + p, q) <==> Prefix(p, q[1..])
    ensures Prefix(q, [q[0]] + p) <==> Prefix(q[1..], p)
  {
    var long := [q[0]] + p;
    if |p| < |q| { assert q[..|long|] == [q[0]] + q[1..][..|p|]; }
    if |q| <= |long| { assert long[..|q|] == [q[0]] + p[..|q| - 1]; }
    assert q == [q[0]] + q[1..];
    assert forall r: Path, s: Path :: [q[0]] + r == [q[0]] + s <==> r == s by {
      forall r: Path, s: Path | [q[0]] + r == [q[0]] + s ensures r == s {
        assert ([q[0]] + r)[1..] == r && ([q[0]] + s)[1..] == s;
      }
    }
  }

  lemma UntouchedStep(a: Value, b: Value, q: Path)
    requires q != [] && Untouched(a, b, q) && !TopDiffers(a, b)
    requires Child(a, q[0]).Some? && Child(b, q[0]).Some?
    ensures Untouched(Child(a, q[0]).value, Child(b, q[0]).value, q[1..])
  {
    var x, y := Child(a, q[0]).value, Child(b, q[0]).value;
    forall p | p in Changed(x, y) ensures !Prefix(p, q[1..]) && !Prefix(q[1..], p) {
      var long := [q[0]] + p;
      assert long[1..] == p;
      ChangedMembers(a, b, long);
      PrefixStep(p, q);
    }
  }

  lemma UntouchedRoot(a: Value, b: Value)
    ensures Untouched(a, b, []) ==> Changed(a, b) == []
  {
    if Changed(a, b) != [] { assert Prefix([], Changed(a, b)[0]) && Changed(a, b)[0] in Changed(a, b); }
  }

  /** Everywhere the report does not touch, both sides hold equivalent values, or neither has the
      location at all. */
  lemma {:induction false} UntouchedAgree(a: Value, b: Value, q: Path)
    requires Untouched(a, b, q)
    ensures match Locate(a, q)
            case None => Locate(b, q) == None
            case Some(x) => Locate(b, q).Some? && Normal(x) == Normal(Locate(b, q).value)
    decreases |q|
  {
    if q == [] {
      UntouchedRoot(a, b);
      EmptyIffEquivalent(a, b);
    } else {
      ChangedMembers(a, b, []);
      assert !TopDiffers(a, b) by { if TopDiffers(a, b) { assert [] in Changed(a, b) && Prefix([], q); } }
      if Child(a, q[0]).Some? && Child(b, q[0]).Some? {
        UntouchedStep(a, b, q);
        UntouchedAgree(Child(a, q[0]).value, Child(b, q[0]).value, q[1..]);
      }
    }
  }

  predicate StepLess(s: Step, t: Step) {
    (s.At? && t.At? && s.key < t.key) || (s.Nth? && t.Nth? && s.index < t.index)
  }

  /** Lexicographic order; neither path is a prefix of the other. */
  predicate PathLess(p: Path, q: Path)
    decreases |p|
  {
    p != [] && q != [] && (StepLess(p[0], q[0]) || (p[0] == q[0] && PathLess(p[1..], q[1..])))
  }

  predicate Ordered(paths: seq<Path>) { forall i, j | 0 <= i < j < |paths| :: PathLess(paths[i], paths[j]) }

  lemma OrderedAppend(before: seq<Path>, s: Step, paths: seq<Path>)
    requires Ordered(before) && Ordered(paths)
    requires forall p | p in before :: p != [] && StepLess(p[0], s)
    ensures Ordered(before + Prefixed(s, paths))
  {
    var added := Prefixed(s, paths);
    forall i, j | 0 <= i < j < |added| ensures PathLess(added[i], added[j]) {
      assert added[i][1..] == paths[i] && added[j][1..] == paths[j];
    }
    forall i, j | 0 <= i < |before| && 0 <= j < |added| ensures PathLess(before[i], added[j]) {
      assert before[i] in before;
    }
  }

  /** The report is in strictly increasing order of location, so it repeats nothing and lists no
      location inside another. */
  lemma {:induction false} ReportOrdered(a: Value, b: Value)
    ensures Ordered(Changed(a, b))
    decreases a, b, 1, 0
  {
    if a.Dict? && b.Dict? {
      OrderedKeys(a, b, Ascending(a.fields.Keys + b.fields.Keys));
    } else if a.Items? && b.Items? && |a.items| == |b.items| {
      OrderedItems(a, b, |a.items|);
    }
  }

  lemma {:induction false} OrderedKeys(a: Value, b: Value, keys: seq<Key>)
    requires a.Dict? && b.Dict? && forall i, j | 0 <= i < j < |keys| :: keys[i] < keys[j]
    ensures Ordered(OfKeys(a, b, keys))
    decreases a, b, 0, |keys|
  {
    hide Changed;
    if keys != [] {
      var init, k := keys[..|keys| - 1], keys[|keys| - 1];
      OrderedKeys(a, b, init);
      if k in a.fields && k in b.fields { ReportOrdered(a.fields[k], b.fields[k]); }
      var before := OfKeys(a, b, init);
      forall p | p in before ensures p != [] && StepLess(p[0], At(k)) { KeyMembers(a, b, init, p); }
      OrderedAppend(before, At(k), AtKey(a, b, k));
    }
  }

  lemma {:induction false} OrderedItems(a: Value, b: Value, n: nat)
    requires a.Items? && b.Items? && n <= |a.items| && n <= |b.items|
    ensures Ordered(OfItems(a, b, n))
    decreases a, b, 0, n
  {
    hide Changed;
    if n > 0 {
      OrderedItems(a, b, n - 1);
      ReportOrdered(a.items[n - 1], b.items[n - 1]);
      var before := OfItems(a, b, n - 1);
      forall p | p in before ensures p != [] && StepLess(p[0], Nth(n - 1)) { ItemMembers(a, b, n - 1, p); }
      OrderedAppend(before, Nth(n - 1), Changed(a.items[n - 1], b.items[n - 1]));
    }
  }
}
