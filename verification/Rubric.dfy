/** The quality rubric shared by every scorer: six dimensions scored 1..3, a pass
    threshold of 2, and the outcome type used for the errors the scripts raise. */
module Rubric {

  datatype Option<+T> = None | Some(value: T)

  /** The exceptions the modelled scripts can raise. */
  datatype Error = ValueError | KeyError | TypeError | AttributeError | ZeroDivisionError | UnvalidatedDimension

  datatype Result<+T> = Ok(value: T) | Err(error: Error)

  /** Candidate and case identifiers: only equality and order matter. */
  type Id = int

  /** `Other` stands for any dictionary key that is not one of the six dimension names. */
  datatype Dim = Grounding | OnTask | Account | Priority | Tone | Safety | Other(name: string)

  /** Dictionaries from dimension name to score, as they appear in labels, keys and judge output. */
  type Scores = map<Dim, int>

  const QUALITY_DIMENSIONS: seq<Dim> := [Grounding, OnTask, Account, Priority, Tone, Safety]
  const ORDINAL_SCORES: seq<int> := [1, 2, 3]
  const PASSING_SCORE: int := 2

  const KNOWN: set<Dim> := {Grounding, OnTask, Account, Priority, Tone, Safety}

  predicate Known(d: Dim) { d in KNOWN }

  lemma KnownDimensions(d: Dim)
    ensures Known(d) <==> d in QUALITY_DIMENSIONS
    ensures Known(d) <==> !d.Other?
  {
    assert forall i | 0 <= i < |QUALITY_DIMENSIONS| :: QUALITY_DIMENSIONS[i] in KNOWN;
    if Known(d) {
      assert d == QUALITY_DIMENSIONS[0] || d == QUALITY_DIMENSIONS[1] || d == QUALITY_DIMENSIONS[2]
          || d == QUALITY_DIMENSIONS[3] || d == QUALITY_DIMENSIONS[4] || d == QUALITY_DIMENSIONS[5];
    }
  }

  /** The place of a dimension in rubric order. */
  function Turn(d: Dim): nat {
    match d
    case Grounding => 0
    case OnTask => 1
    case Account => 2
    case Priority => 3
    case Tone => 4
    case Safety => 5
    case Other(_) => 6
  }

  lemma Turns()
    ensures |QUALITY_DIMENSIONS| == 6
    ensures forall j | 0 <= j < 6 :: Turn(QUALITY_DIMENSIONS[j]) == j && Known(QUALITY_DIMENSIONS[j])
    ensures forall d: Dim :: Known(d) <==> Turn(d) < 6
    ensures forall d: Dim | Known(d) :: QUALITY_DIMENSIONS[Turn(d)] == d
  {
    forall d: Dim ensures Known(d) <==> Turn(d) < 6 { KnownDimensions(d); }
  }

  predicate HasAll(v: Scores) { forall d | d in KNOWN :: d in v }

  /** A score dictionary with a value for every dimension. */
  type Vector = v: Scores | HasAll(v) witness map d | d in KNOWN :: 1

  predicate OnScale(s: int) { 1 <= s <= 3 }

  /** Every dimension has a score on the 1..3 scale. */
  predicate Rated(v: Scores) { forall d | d in KNOWN :: d in v && OnScale(v[d]) }

  /** Exactly the six dimensions, each on the scale. */
  predicate WellFormed(v: Scores) { Rated(v) && v.Keys == KNOWN }

  /** `all(v[d] >= PASSING_SCORE for d in QUALITY_DIMENSIONS)` */
  predicate OverallPass(v: Vector) { forall d | d in KNOWN :: v[d] >= PASSING_SCORE }

  /** `[d for d in dims if v[d] < PASSING_SCORE]`, in rubric order. */
  function FailingAmong(dims: seq<Dim>, v: Scores): seq<Dim>
    requires forall d | d in dims :: d in v
  {
    if dims == [] then []
    else (if v[dims[0]] < PASSING_SCORE then [dims[0]] else []) + FailingAmong(dims[1..], v)
  }

  function Failing(v: Vector): seq<Dim> {
    assert forall d | d in QUALITY_DIMENSIONS :: d in KNOWN;
    FailingAmong(QUALITY_DIMENSIONS, v)
  }

  lemma FailingAmongMembers(dims: seq<Dim>, v: Scores, d: Dim)
    requires forall e | e in dims :: e in v
    ensures d in FailingAmong(dims, v) <==> d in dims && v[d] < PASSING_SCORE
  {
    if dims != [] {
      FailingAmongMembers(dims[1..], v, d);
      assert dims == [dims[0]] + dims[1..];
    }
  }

  lemma FailingMembers(v: Vector, d: Dim)
    ensures d in Failing(v) <==> Known(d) && v[d] < PASSING_SCORE
  {
    KnownDimensions(d);
    assert forall e | e in QUALITY_DIMENSIONS :: e in KNOWN;
    FailingAmongMembers(QUALITY_DIMENSIONS, v, d);
  }
}
