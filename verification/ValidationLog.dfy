/** The failures the gate collects on the way: overall, structural, and charged to dimensions
    (eval/judge_validation.py). */
module ValidationLog {
  import opened Rubric
  import opened ValidationReport

  // ----- The collected failures -----

  datatype RawLog = Log(failures: seq<Failure>, structural: seq<Failure>, charged: map<Dim, seq<Failure>>)

  /** Failures overall, structural ones, and those charged to each dimension. */
  type Log = l: RawLog | l.charged.Keys == KNOWN witness Log([], [], map d | d in KNOWN :: [])

  const EMPTY_LOG: Log := Log([], [], map d | d in KNOWN :: [])

  type ReportSet = Failure -> bool
  type ChargeSet = (Dim, Failure) -> bool

  /** `after` holds what `before` holds and the given failures besides. */
  ghost predicate Adds(before: Log, after: Log, reported: ReportSet, charged: ChargeSet) {
    && (forall f :: f in after.failures <==> f in before.failures || reported(f))
    && (forall f :: f in after.structural <==> f in before.structural || (reported(f) && IsStructural(f)))
    && (forall d, f | Known(d) :: f in after.charged[d] <==> f in before.charged[d] || charged(d, f))
  }

  function NoReports(): ReportSet { _ => false }

  function Just(f: Failure): ReportSet { g => g == f }

  function NoCharges(): ChargeSet { (_, _) => false }

  function JustAt(d: Dim, f: Failure): ChargeSet { (e, g) => e == d && g == f }

  function Everywhere(f: Failure): ChargeSet { (_, g) => g == f }

  function Structural(l: Log, f: Failure): Log {
    l.(failures := l.failures + [f], structural := l.structural + [f])
  }

  function Failed(l: Log, d: Dim, f: Failure): Log
    requires Known(d)
  {
    l.(failures := l.failures + [f], charged := l.charged[d := l.charged[d] + [f]])
  }

  function FailedEverywhere(l: Log, f: Failure): Log {
    ChargedEverywhere(l.(failures := l.failures + [f]), [f])
  }

  function ChargedEverywhere(l: Log, fs: seq<Failure>): Log {
    l.(charged := map d | d in KNOWN :: l.charged[d] + fs)
  }

  lemma ChargedEverywhereAt(l: Log, fs: seq<Failure>, d: Dim)
    requires Known(d)
    ensures ChargedEverywhere(l, fs).charged[d] == l.charged[d] + fs
  {
    hide KNOWN;
  }

  lemma ChargedEverywhereRest(l: Log, fs: seq<Failure>)
    ensures ChargedEverywhere(l, fs).failures == l.failures && ChargedEverywhere(l, fs).structural == l.structural
  {
    hide KNOWN;
  }

  lemma StructuralAdds(l: Log, f: Failure)
    requires IsStructural(f)
    ensures Adds(l, Structural(l, f), Just(f), NoCharges())
  {
    hide IsStructural;
    hide KNOWN;
  }

  lemma FailedParts(l: Log, d: Dim, f: Failure, e: Dim)
    requires Known(d) && Known(e)
    ensures Failed(l, d, f).failures == l.failures + [f] && Failed(l, d, f).structural == l.structural
    ensures Failed(l, d, f).charged[e] == l.charged[e] + if e == d then [f] else []
  {
    hide KNOWN;
  }

  lemma FailedAdds(l: Log, d: Dim, f: Failure)
    requires Known(d) && !IsStructural(f)
    ensures Adds(l, Failed(l, d, f), Just(f), JustAt(d, f))
  {
    hide IsStructural;
    hide KNOWN;
    hide Failed;
    var out := Failed(l, d, f);
    FailedParts(l, d, f, d);
    forall e | Known(e) ensures out.charged[e] == l.charged[e] + if e == d then [f] else [] { FailedParts(l, d, f, e); }
    FailedFrom(l, out, d, f);
    hide Adds;
  }

  lemma FailedFrom(l: Log, out: Log, d: Dim, f: Failure)
    requires !IsStructural(f) && out.failures == l.failures + [f] && out.structural == l.structural
    requires forall e | Known(e) :: out.charged[e] == l.charged[e] + if e == d then [f] else []
    ensures Adds(l, out, Just(f), JustAt(d, f))
  {
    hide IsStructural;
    hide KNOWN;
    hide Known;
  }

  lemma EverywhereAdds(l: Log, out: Log, f: Failure)
    requires !IsStructural(f) && out.failures == l.failures + [f] && out.structural == l.structural
    requires forall d | Known(d) :: out.charged[d] == l.charged[d] + [f]
    ensures Adds(l, out, Just(f), Everywhere(f))
  {
    hide IsStructural;
    hide KNOWN;
    hide Known;
  }

  lemma FailedEverywhereAdds(l: Log, f: Failure)
    requires !IsStructural(f)
    ensures Adds(l, FailedEverywhere(l, f), Just(f), Everywhere(f))
  {
    hide IsStructural;
    hide KNOWN;
    hide ChargedEverywhere;
    hide Adds;
    var longer := l.(failures := l.failures + [f]);
    forall d | Known(d) ensures ChargedEverywhere(longer, [f]).charged[d] == l.charged[d] + [f] {
      ChargedEverywhereAt(longer, [f], d);
    }
    ChargedEverywhereRest(longer, [f]);
    EverywhereAdds(l, FailedEverywhere(l, f), f);
  }

  lemma AddsNothing(l: Log)
    ensures Adds(l, l, NoReports(), NoCharges())
  {
    hide IsStructural;
    hide Known;
  }

  lemma AddsSame(a: Log, b: Log, r: ReportSet, s: ReportSet, x: ChargeSet, y: ChargeSet)
    requires Adds(a, b, r, x)
    requires forall f :: s(f) <==> r(f)
    requires forall d, f | Known(d) :: y(d, f) <==> x(d, f)
    ensures Adds(a, b, s, y)
  {
    hide IsStructural;
    hide Known;
  }

  /** Two additions in a row are one of both, however that one is described. */
  lemma AddsBoth(a: Log, b: Log, c: Log, r: ReportSet, s: ReportSet, u: ReportSet, x: ChargeSet, y: ChargeSet,
                 z: ChargeSet)
    requires Adds(a, b, r, x) && Adds(b, c, s, y)
    requires forall f :: u(f) <==> r(f) || s(f)
    requires forall d, f | Known(d) :: z(d, f) <==> x(d, f) || y(d, f)
    ensures Adds(a, c, u, z)
  {
    hide IsStructural;
    hide Known;
  }

  lemma AddsFailed(a: Log, b: Log, r: ReportSet, u: ReportSet, x: ChargeSet, z: ChargeSet, d: Dim, g: Failure)
    requires Adds(a, b, r, x) && Known(d) && !IsStructural(g)
    requires forall f :: u(f) <==> r(f) || f == g
    requires forall e, f | Known(e) :: z(e, f) <==> x(e, f) || (e == d && f == g)
    ensures Adds(a, Failed(b, d, g), u, z)
  {
    FailedAdds(b, d, g);
    hide Adds;
    hide IsStructural;
    hide Failed;
    hide Known;
    AddsBoth(a, b, Failed(b, d, g), r, Just(g), u, x, JustAt(d, g), z);
  }

  lemma AddsStructural(a: Log, b: Log, r: ReportSet, u: ReportSet, x: ChargeSet, g: Failure)
    requires Adds(a, b, r, x) && IsStructural(g)
    requires forall f :: u(f) <==> r(f) || f == g
    ensures Adds(a, Structural(b, g), u, x)
  {
    StructuralAdds(b, g);
    hide Adds;
    hide IsStructural;
    hide Structural;
    hide Known;
    AddsBoth(a, b, Structural(b, g), r, Just(g), u, x, NoCharges(), x);
  }

  lemma AddsEverywhere(a: Log, b: Log, r: ReportSet, u: ReportSet, x: ChargeSet, z: ChargeSet, g: Failure)
    requires Adds(a, b, r, x) && !IsStructural(g)
    requires forall f :: u(f) <==> r(f) || f == g
    requires forall e, f | Known(e) :: z(e, f) <==> x(e, f) || f == g
    ensures Adds(a, FailedEverywhere(b, g), u, z)
  {
    FailedEverywhereAdds(b, g);
    hide Adds;
    hide IsStructural;
    hide FailedEverywhere;
    hide Known;
    AddsBoth(a, b, FailedEverywhere(b, g), r, Just(g), u, x, Everywhere(g), z);
  }
}
