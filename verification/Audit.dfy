/** The blind audit of cells on which judge and reference agree (eval/diagnose_judge.py):
    which cards each run issues, and the files that keep issued cards from coming back. */
module Audit {
  import opened Rubric

  datatype Layer = Clean | HardLayer

  datatype Item = Item(layer: Layer, candidate: Id, reference: Vector, judge: Vector)

  datatype Cell = Cell(item: Item, dim: Dim)

  /** Stands for the hash of layer, candidate and dimension, taken to be injective. */
  datatype AuditId = AuditId(layer: Layer, candidate: Id, dim: Dim)

  function IdOf(c: Cell): AuditId { AuditId(c.item.layer, c.item.candidate, c.dim) }

  /** The sort key of a cell: a hash of candidate and dimension, without the layer. */
  type Rank = (Id, Dim) -> int

  function RankOf(rank: Rank, c: Cell): int { rank(c.item.candidate, c.dim) }

  // ----- Candidate cells -----

  function AgreedDims(item: Item, dims: seq<Dim>): (cells: seq<Cell>)
    requires forall d | d in dims :: d in item.reference && d in item.judge
  {
    if dims == [] then []
    else
      var rest := AgreedDims(item, dims[..|dims| - 1]);
      var d := dims[|dims| - 1];
      assert d in dims;
      if item.reference[d] == item.judge[d] then rest + [Cell(item, d)] else rest
  }

  lemma DimensionsKnown()
    ensures forall d | d in QUALITY_DIMENSIONS :: d in KNOWN
  {
    forall d | d in QUALITY_DIMENSIONS ensures d in KNOWN { KnownDimensions(d); }
  }

  function AgreedCells(items: seq<Item>): seq<Cell> {
    if items == [] then []
    else
      DimensionsKnown();
      AgreedCells(items[..|items| - 1]) + AgreedDims(items[|items| - 1], QUALITY_DIMENSIONS)
  }

  /** Insertion behind every cell of smaller or equal rank. */
  function Insert(c: Cell, sorted: seq<Cell>, rank: Rank): seq<Cell> {
    if sorted == [] || RankOf(rank, sorted[|sorted| - 1]) <= RankOf(rank, c) then sorted + [c]
    else Insert(c, sorted[..|sorted| - 1], rank) + [sorted[|sorted| - 1]]
  }

  /** `sorted(cells, key=rank)`: stable. */
  function SortCells(cells: seq<Cell>, rank: Rank): seq<Cell> {
    if cells == [] then [] else Insert(cells[|cells| - 1], SortCells(cells[..|cells| - 1], rank), rank)
  }

  predicate Ordered(cells: seq<Cell>, rank: Rank) {
    forall i, j | 0 <= i < j < |cells| :: RankOf(rank, cells[i]) <= RankOf(rank, cells[j])
  }

  lemma {:induction false} InsertMultiset(c: Cell, sorted: seq<Cell>, rank: Rank)
    ensures multiset(Insert(c, sorted, rank)) == multiset(sorted) + multiset{c}
  {
    if sorted != [] {
      assert sorted == sorted[..|sorted| - 1] + [sorted[|sorted| - 1]];
      InsertMultiset(c, sorted[..|sorted| - 1], rank);
    }
  }

  lemma {:induction false} InsertOrdered(c: Cell, sorted: seq<Cell>, rank: Rank)
    requires Ordered(sorted, rank)
    ensures Ordered(Insert(c, sorted, rank), rank)
  {
    if sorted != [] && RankOf(rank, sorted[|sorted| - 1]) > RankOf(rank, c) {
      var init, last := sorted[..|sorted| - 1], sorted[|sorted| - 1];
      InsertOrdered(c, init, rank);
      InsertMultiset(c, init, rank);
      var inserted := Insert(c, init, rank);
      hide RankOf;
      hide Insert;
      forall i | 0 <= i < |inserted| ensures inserted[i] == c || inserted[i] in init {
        assert inserted[i] in multiset(inserted);
      }
      OrderedAppend(inserted, last, rank);
    }
  }

  lemma OrderedAppend(cells: seq<Cell>, last: Cell, rank: Rank)
    requires Ordered(cells, rank) && forall i | 0 <= i < |cells| :: RankOf(rank, cells[i]) <= RankOf(rank, last)
    ensures Ordered(cells + [last], rank)
  {
    hide RankOf;
  }

  lemma {:induction false} SortProperties(cells: seq<Cell>, rank: Rank)
    ensures multiset(SortCells(cells, rank)) == multiset(cells)
    ensures Ordered(SortCells(cells, rank), rank)
  {
    if cells != [] {
      var init, last := cells[..|cells| - 1], cells[|cells| - 1];
      assert cells == init + [last];
      SortProperties(init, rank);
      InsertMultiset(last, SortCells(init, rank), rank);
      InsertOrdered(last, SortCells(init, rank), rank);
    }
  }

  // ----- One run -----

  function IdsOf(cells: seq<Cell>): (ids: seq<AuditId>)
    ensures |ids| == |cells|
    ensures forall i | 0 <= i < |ids| :: ids[i] == IdOf(cells[i])
  {
    seq(|cells|, i requires 0 <= i < |cells| => IdOf(cells[i]))
  }

  function NotIn(cells: seq<Cell>, excluded: set<AuditId>): seq<Cell> {
    if cells == [] then []
    else
      var last := cells[|cells| - 1];
      NotIn(cells[..|cells| - 1], excluded) + (if IdOf(last) !in excluded then [last] else [])
  }

  /** `xs[:n]`, where a negative n drops from the end. */
  function Slice(cells: seq<Cell>, n: int): seq<Cell> {
    if n >= |cells| then cells
    else if n >= 0 then cells[..n]
    else if -n >= |cells| then [] else cells[..|cells| + n]
  }

  function Selected(items: seq<Item>, rank: Rank, size: int, excluded: set<AuditId>): seq<Cell> {
    Slice(NotIn(SortCells(AgreedCells(items), rank), excluded), size)
  }

  /** What the labeler sees: no scores of either side. */
  datatype Card = Card(auditId: AuditId, candidate: Id, layer: Layer, dim: Dim)

  datatype KeyEntry = KeyEntry(auditId: AuditId, candidate: Id, layer: Layer, dim: Dim, reference: int, judge: int)

  function CardOf(c: Cell): Card { Card(IdOf(c), c.item.candidate, c.item.layer, c.dim) }

  /** One card and one key entry for each selected cell, in order; the key holds the score both
      sides agreed on, the card neither. */
  method BuildAudit(items: seq<Item>, rank: Rank, size: int, excluded: set<AuditId>)
    returns (cards: seq<Card>, key: seq<KeyEntry>)
    ensures |cards| == |key| == |Selected(items, rank, size, excluded)|
    ensures forall i | 0 <= i < |cards| :: cards[i] == CardOf(Selected(items, rank, size, excluded)[i])
    ensures forall i | 0 <= i < |key| :: key[i].auditId == cards[i].auditId && key[i].auditId !in excluded
                                         && key[i].candidate == cards[i].candidate && key[i].layer == cards[i].layer
                                         && key[i].dim == cards[i].dim
    ensures forall i | 0 <= i < |key| ::
              var c := Selected(items, rank, size, excluded)[i];
              Known(c.dim) && key[i].reference == c.item.reference[c.dim] == c.item.judge[c.dim] == key[i].judge
  {
    var selected := Selected(items, rank, size, excluded);
    SelectedAgreed(items, rank, size, excluded);
    hide Selected;
    cards, key := [], [];
    for k := 0 to |selected|
      invariant |cards| == |key| == k
      invariant forall i | 0 <= i < k :: cards[i] == CardOf(selected[i])
      invariant forall i | 0 <= i < k :: var c := selected[i];
                  key[i] == KeyEntry(IdOf(c), c.item.candidate, c.item.layer, c.dim,
                                     c.item.reference[c.dim], c.item.judge[c.dim])
    {
      var c := selected[k];
      assert c in selected;
      var id := IdOf(c);
      cards := cards + [Card(id, c.item.candidate, c.item.layer, c.dim)];
      key := key + [KeyEntry(id, c.item.candidate, c.item.layer, c.dim, c.item.reference[c.dim], c.item.judge[c.dim])];
    }
    assert forall i | 0 <= i < |selected| :: selected[i] in selected;
  }

  predicate AgreedCell(c: Cell) {
    Known(c.dim) && c.item.reference[c.dim] == c.item.judge[c.dim]
  }

  lemma {:induction false} AgreedDimsMembers(item: Item, dims: seq<Dim>)
    requires forall d | d in dims :: Known(d) && d in item.reference && d in item.judge
    ensures forall c | c in AgreedDims(item, dims) :: c.item == item && c.dim in dims && AgreedCell(c)
  {
    if dims != [] {
      var init := dims[..|dims| - 1];
      assert dims == init + [dims[|dims| - 1]];
      AgreedDimsMembers(item, init);
    }
  }

  lemma {:induction false} AgreedCellsMembers(items: seq<Item>)
    ensures forall c | c in AgreedCells(items) :: c.item in items && AgreedCell(c)
  {
    if items != [] {
      DimensionsKnown();
      assert items == items[..|items| - 1] + [items[|items| - 1]];
      AgreedCellsMembers(items[..|items| - 1]);
      AgreedDimsMembers(items[|items| - 1], QUALITY_DIMENSIONS);
    }
  }

  lemma {:induction false} NotInMembers(cells: seq<Cell>, excluded: set<AuditId>)
    ensures forall c | c in NotIn(cells, excluded) :: c in cells && IdOf(c) !in excluded
  {
    if cells != [] {
      assert cells == cells[..|cells| - 1] + [cells[|cells| - 1]];
      NotInMembers(cells[..|cells| - 1], excluded);
    }
  }

  lemma SelectedAgreed(items: seq<Item>, rank: Rank, size: int, excluded: set<AuditId>)
    ensures forall c | c in Selected(items, rank, size, excluded) :: AgreedCell(c) && IdOf(c) !in excluded
  {
    var cells := AgreedCells(items);
    var sorted := SortCells(cells, rank);
    AgreedCellsMembers(items);
    SortProperties(cells, rank);
    NotInMembers(sorted, excluded);
    forall c | c in Selected(items, rank, size, excluded) ensures AgreedCell(c) && IdOf(c) !in excluded {
      assert c in NotIn(sorted, excluded);
      assert c in multiset(sorted);
      assert c in cells;
    }
  }

  // ----- The files -----

  /** Burned ids in the history file, and the ids in the current key file. */
  datatype Files = Files(history: Option<set<AuditId>>, key: Option<seq<AuditId>>)

  function Ids(key: seq<AuditId>): set<AuditId> { set id | id in key }

  function Burned(f: Files): set<AuditId> {
    (if f.history.Some? then f.history.value else {}) + (if f.key.Some? then Ids(f.key.value) else {})
  }

  /** What a run leaves out of its selection. */
  function Excluded(f: Files, includeExisting: bool): set<AuditId> {
    if f.key.Some? && !includeExisting then Burned(f)
    else if f.history.Some? then f.history.value else {}
  }

  datatype AuditRun = AuditRun(items: seq<Item>, rank: Rank, size: int, includeExisting: bool)

  function Issued(f: Files, r: AuditRun): seq<AuditId> {
    IdsOf(Selected(r.items, r.rank, r.size, Excluded(f, r.includeExisting)))
  }

  function AfterRun(f: Files, r: AuditRun): Files {
    Files(if f.key.Some? && !r.includeExisting then Some(Burned(f)) else f.history, Some(Issued(f, r)))
  }

  class AuditStore {
    var history: Option<set<AuditId>>
    var key: Option<seq<AuditId>>

    ghost function Contents(): Files
      reads this
    {
      Files(history, key)
    }

    method Run(r: AuditRun) returns (cards: seq<Card>)
      modifies this
      ensures Contents() == AfterRun(old(Contents()), r)
      ensures key == Some(Issued(old(Contents()), r))
      ensures |cards| == |Issued(old(Contents()), r)|
      ensures forall i | 0 <= i < |cards| :: cards[i].auditId == Issued(old(Contents()), r)[i]
    {
      hide Selected;
      ghost var before := Contents();
      var exclude := if history.Some? then history.value else {};
      if key.Some? && !r.includeExisting {
        exclude := exclude + Ids(key.value);
        history := Some(exclude);
      }
      var entries;
      cards, entries := BuildAudit(r.items, r.rank, r.size, exclude);
      var ids := seq(|entries|, i requires 0 <= i < |entries| => entries[i].auditId);
      key := Some(ids);
      assert exclude == Excluded(before, r.includeExisting);
      assert ids == Issued(before, r);
    }
  }

  // ----- Over many runs -----

  predicate DistinctItems(items: seq<Item>) {
    forall i, j | 0 <= i < j < |items| :: items[i].layer != items[j].layer || items[i].candidate != items[j].candidate
  }

  predicate DistinctIds(ids: seq<AuditId>) { forall i, j | 0 <= i < j < |ids| :: ids[i] != ids[j] }

  predicate DistinctCells(cells: seq<Cell>) { forall i, j | 0 <= i < j < |cells| :: IdOf(cells[i]) != IdOf(cells[j]) }

  lemma {:induction false} AgreedDimsDistinct(item: Item, dims: seq<Dim>)
    requires forall d | d in dims :: Known(d) && d in item.reference && d in item.judge
    requires forall i, j | 0 <= i < j < |dims| :: dims[i] != dims[j]
    ensures DistinctCells(AgreedDims(item, dims))
  {
    if dims != [] {
      var init, d := dims[..|dims| - 1], dims[|dims| - 1];
      AgreedDimsDistinct(item, init);
      AgreedDimsMembers(item, init);
      var rest := AgreedDims(item, init);
      forall i | 0 <= i < |rest| ensures rest[i].dim != d { assert rest[i] in rest; }
    }
  }

  lemma {:induction false} AgreedCellsDistinct(items: seq<Item>)
    requires DistinctItems(items)
    ensures DistinctCells(AgreedCells(items))
  {
    hide AgreedDims;
    hide AgreedCell;
    hide IdOf;
    if items != [] {
      DimensionsKnown();
      var init, item := items[..|items| - 1], items[|items| - 1];
      AgreedCellsDistinct(init);
      AgreedCellsMembers(init);
      AgreedDimsMembers(item, QUALITY_DIMENSIONS);
      AgreedDimsDistinct(item, QUALITY_DIMENSIONS);
      AppendDistinct(AgreedCells(init), AgreedDims(item, QUALITY_DIMENSIONS), items, item);
    }
  }

  lemma AppendDistinct(a: seq<Cell>, b: seq<Cell>, items: seq<Item>, item: Item)
    requires items != [] && items[|items| - 1] == item && DistinctItems(items)
    requires DistinctCells(a) && DistinctCells(b)
    requires (forall c | c in a :: c.item in items[..|items| - 1]) && (forall c | c in b :: c.item == item)
    ensures DistinctCells(a + b)
  {
    forall i, j | 0 <= i < |a| && 0 <= j < |b| ensures IdOf(a[i]) != IdOf(b[j]) {
      assert a[i] in a && b[j] in b;
      var k :| 0 <= k < |items| - 1 && items[k] == a[i].item;
    }
  }

  lemma {:induction false} CountDistinct(cells: seq<Cell>, c: Cell)
    requires DistinctCells(cells)
    ensures multiset(cells)[c] <= 1
  {
    if cells != [] {
      var init, last := cells[..|cells| - 1], cells[|cells| - 1];
      assert cells == init + [last];
      CountDistinct(init, c);
      forall i | 0 <= i < |init| ensures init[i] != last { assert IdOf(cells[i]) != IdOf(last); }
      assert last !in init;
    }
  }

  /** A rearrangement of distinct cells is distinct. */
  lemma RearrangedDistinct(a: seq<Cell>, b: seq<Cell>)
    requires DistinctCells(a) && multiset(a) == multiset(b)
    ensures DistinctCells(b)
  {
    forall i, j | 0 <= i < j < |b| ensures IdOf(b[i]) != IdOf(b[j]) {
      assert b[i] in multiset(b) && b[j] in multiset(b);
      var k :| 0 <= k < |a| && a[k] == b[i];
      var l :| 0 <= l < |a| && a[l] == b[j];
      if k == l {
        CountDistinct(a, b[i]);
        TwiceCounted(b, i, j);
      }
    }
  }

  lemma TwiceCounted(b: seq<Cell>, i: nat, j: nat)
    requires i < j < |b| && b[i] == b[j]
    ensures multiset(b)[b[i]] >= 2
  {
    assert b == b[..j] + ([b[j]] + b[j + 1..]);
    assert b[i] in b[..j];
    assert multiset(b) == multiset(b[..j]) + (multiset{b[j]} + multiset(b[j + 1..]));
    assert multiset(b[..j])[b[i]] >= 1;
  }

  lemma {:induction false} NotInDistinct(cells: seq<Cell>, excluded: set<AuditId>)
    requires DistinctCells(cells)
    ensures DistinctCells(NotIn(cells, excluded))
  {
    if cells != [] {
      var init, last := cells[..|cells| - 1], cells[|cells| - 1];
      NotInDistinct(init, excluded);
      NotInMembers(init, excluded);
      var kept := NotIn(init, excluded);
      forall i | 0 <= i < |kept| ensures IdOf(kept[i]) != IdOf(last) {
        assert kept[i] in kept;
        var k :| 0 <= k < |init| && init[k] == kept[i];
        assert cells[k] == kept[i];
      }
    }
  }

  lemma SortedAgreedDistinct(items: seq<Item>, rank: Rank)
    requires DistinctItems(items)
    ensures DistinctCells(SortCells(AgreedCells(items), rank))
  {
    AgreedCellsDistinct(items);
    SortProperties(AgreedCells(items), rank);
    RearrangedDistinct(AgreedCells(items), SortCells(AgreedCells(items), rank));
  }

  lemma SelectedDistinct(items: seq<Item>, rank: Rank, size: int, excluded: set<AuditId>)
    requires DistinctItems(items)
    ensures DistinctCells(Selected(items, rank, size, excluded))
  {
    SortedAgreedDistinct(items, rank);
    var sorted := SortCells(AgreedCells(items), rank);
    NotInDistinct(sorted, excluded);
    hide SortCells;
    hide AgreedCells;
    hide NotIn;
  }

  /** One run issues no id twice and none that was burned. */
  lemma RunIsFresh(f: Files, r: AuditRun)
    requires DistinctItems(r.items)
    ensures DistinctIds(Issued(f, r))
    ensures forall id | id in Issued(f, r) :: id !in Excluded(f, r.includeExisting)
  {
    hide Selected;
    hide Excluded;
    var excluded := Excluded(f, r.includeExisting);
    SelectedDistinct(r.items, r.rank, r.size, excluded);
    SelectedAgreed(r.items, r.rank, r.size, excluded);
    var chosen := Selected(r.items, r.rank, r.size, excluded);
    assert forall i | 0 <= i < |chosen| :: chosen[i] in chosen;
  }

  function AfterRuns(f: Files, runs: seq<AuditRun>): Files {
    if runs == [] then f else AfterRun(AfterRuns(f, runs[..|runs| - 1]), runs[|runs| - 1])
  }

  /** What run k of the sequence issues. */
  function IssuedBy(f: Files, runs: seq<AuditRun>, k: nat): seq<AuditId>
    requires k < |runs|
  {
    Issued(AfterRuns(f, runs[..k]), runs[k])
  }

  predicate Ordinary(runs: seq<AuditRun>) {
    forall k | 0 <= k < |runs| :: !runs[k].includeExisting && DistinctItems(runs[k].items)
  }

  lemma BurnedStep(f: Files, r: AuditRun)
    requires !r.includeExisting
    ensures Burned(AfterRun(f, r)) == Burned(f) + Ids(Issued(f, r))
    ensures AfterRun(f, r).key.Some?
  {
    hide Issued;
  }

  lemma IssuedByPrefix(f: Files, runs: seq<AuditRun>, n: nat, k: nat)
    requires k < n <= |runs|
    ensures IssuedBy(f, runs[..n], k) == IssuedBy(f, runs, k)
  {
    assert runs[..n][..k] == runs[..k];
  }

  ghost predicate EverIssued(f: Files, runs: seq<AuditRun>, id: AuditId) {
    exists k | 0 <= k < |runs| :: id in IssuedBy(f, runs, k)
  }

  lemma EverIssuedStep(f: Files, runs: seq<AuditRun>, id: AuditId, n: nat)
    requires |runs| == n + 1
    ensures EverIssued(f, runs, id) <==> EverIssued(f, runs[..n], id) || id in IssuedBy(f, runs, n)
  {
    hide IssuedBy;
    forall k | 0 <= k < n ensures IssuedBy(f, runs[..n], k) == IssuedBy(f, runs, k) { IssuedByPrefix(f, runs, n, k); }
    if EverIssued(f, runs, id) {
      var k :| 0 <= k < |runs| && id in IssuedBy(f, runs, k);
      if k < n { assert id in IssuedBy(f, runs[..n], k); }
    }
    if EverIssued(f, runs[..n], id) {
      var k :| 0 <= k < n && id in IssuedBy(f, runs[..n], k);
      assert id in IssuedBy(f, runs, k);
    }
  }

  lemma AfterRunsStep(f: Files, runs: seq<AuditRun>, n: nat, id: AuditId)
    requires |runs| == n + 1 && !runs[n].includeExisting
    ensures id in Burned(AfterRuns(f, runs)) <==> id in Burned(AfterRuns(f, runs[..n])) || id in IssuedBy(f, runs, n)
  {
    BurnedStep(AfterRuns(f, runs[..n]), runs[n]);
    IdsMembers(IssuedBy(f, runs, n), id);
    hide Burned;
    hide Issued;
    hide AfterRun;
  }

  /** Without `--include-existing-audit`, the burned ids after a sequence of runs are those
      burned before it together with everything it issued. */
  lemma {:induction false} BurnedIsIssued(f: Files, runs: seq<AuditRun>, id: AuditId)
    requires forall k | 0 <= k < |runs| :: !runs[k].includeExisting
    ensures id in Burned(AfterRuns(f, runs)) <==> id in Burned(f) || EverIssued(f, runs, id)
  {
    if runs != [] {
      hide *;
      var n := |runs| - 1;
      BurnedIsIssued(f, runs[..n], id);
      EverIssuedStep(f, runs, id, n);
      AfterRunsStep(f, runs, n, id);
    }
  }

  lemma IdsMembers(key: seq<AuditId>, id: AuditId)
    ensures id in Ids(key) <==> id in key
  {
  }

  /** No id is ever issued twice, by one run or by two, however the agreed cells change in
      between; and no run issues an id burned beforehand. */
  lemma NeverReissued(f: Files, runs: seq<AuditRun>, j: nat, k: nat, id: AuditId)
    requires Ordinary(runs) && j < k < |runs| && id in IssuedBy(f, runs, j)
    ensures id !in IssuedBy(f, runs, k)
  {
    var before := AfterRuns(f, runs[..k]);
    BurnedIsIssued(f, runs[..k], id);
    IssuedByPrefix(f, runs, k, j);
    assert EverIssued(f, runs[..k], id);
    RunIsFresh(before, runs[k]);
    assert before.key.Some?;
    hide Burned;
    hide Issued;
  }

  // ----- Fixed cells: the audit walks through them -----

  /** Exactly the first m cells are excluded. */
  predicate PrefixExcluded(cells: seq<Cell>, m: nat, excluded: set<AuditId>) {
    forall i | 0 <= i < |cells| :: IdOf(cells[i]) in excluded <==> i < m
  }

  lemma {:induction false} NotInPrefix(cells: seq<Cell>, m: nat, j: nat, excluded: set<AuditId>)
    requires m <= |cells| && j <= |cells| && PrefixExcluded(cells, m, excluded)
    ensures NotIn(cells[..j], excluded) == if j <= m then [] else cells[m..j]
  {
    if j > 0 {
      NotInPrefix(cells, m, j - 1, excluded);
      assert cells[..j][..j - 1] == cells[..j - 1];
      hide IdOf;
    }
  }

  lemma ExcludedByIds(cells: seq<Cell>, m: nat, excluded: set<AuditId>)
    requires DistinctCells(cells) && m <= |cells|
    requires forall id :: id in excluded <==> id in IdsOf(cells[..m])
    ensures PrefixExcluded(cells, m, excluded)
  {
    var ids := IdsOf(cells[..m]);
    forall i | 0 <= i < |cells| ensures IdOf(cells[i]) in excluded <==> i < m {
      if i < m {
        assert ids[i] == IdOf(cells[i]);
      } else {
        forall k | 0 <= k < m ensures ids[k] != IdOf(cells[i]) { assert IdOf(cells[k]) != IdOf(cells[i]); }
      }
    }
  }

  /** k identical runs. */
  function Repeated(r: AuditRun, k: nat): (runs: seq<AuditRun>)
    ensures |runs| == k && forall i | 0 <= i < k :: runs[i] == r
  {
    seq(k, _ => r)
  }

  /** Where the k-th slice of size n begins in a list of length len. */
  function Start(k: nat, n: nat, len: nat): nat { if k * n <= len then k * n else len }

  lemma StartStep(k: nat, n: nat, len: nat)
    ensures Start(k + 1, n, len) == if Start(k, n, len) + n <= len then Start(k, n, len) + n else len
  {
    assert (k + 1) * n == k * n + n;
  }

  /** The burned ids are those of the first m candidates. */
  ghost predicate BurnedUpTo(f: Files, cells: seq<Cell>, m: nat)
    requires m <= |cells|
  {
    (forall id :: id in Burned(f) <==> id in IdsOf(cells[..m])) && (f.key == None ==> f.history == None)
  }

  lemma IdsSplit(cells: seq<Cell>, l: nat, m: nat)
    requires l <= m <= |cells|
    ensures forall id :: id in IdsOf(cells[..m]) <==> id in IdsOf(cells[..l]) || id in IdsOf(cells[l..m])
  {
    assert IdsOf(cells[..m]) == IdsOf(cells[..l]) + IdsOf(cells[l..m]);
  }

  lemma NextSlice(cells: seq<Cell>, excluded: set<AuditId>, n: nat, l: nat, m: nat)
    requires DistinctCells(cells) && l <= |cells| && m == if l + n <= |cells| then l + n else |cells|
    requires forall id :: id in excluded <==> id in IdsOf(cells[..l])
    ensures Slice(NotIn(cells, excluded), n) == cells[l..m]
  {
    ExcludedByIds(cells, l, excluded);
    hide NotIn;
    hide IdsOf;
    hide IdOf;
    NotInPrefix(cells, l, |cells|, excluded);
    assert cells[..|cells|] == cells;
    SliceOfSlice(cells, l, m);
  }

  lemma SliceOfSlice(cells: seq<Cell>, l: nat, m: nat)
    requires l <= m <= |cells|
    ensures cells[l..][..m - l] == cells[l..m] && cells[l..|cells|] == cells[l..]
  {
  }

  lemma SliceIssued(r: AuditRun, f: Files, cells: seq<Cell>, l: nat, m: nat)
    requires r.size >= 0 && !r.includeExisting
    requires cells == SortCells(AgreedCells(r.items), r.rank) && DistinctCells(cells)
    requires l <= |cells| && m == if l + r.size <= |cells| then l + r.size else |cells|
    requires BurnedUpTo(f, cells, l)
    ensures Issued(f, r) == IdsOf(cells[l..m]) && BurnedUpTo(AfterRun(f, r), cells, m)
  {
    hide NotIn;
    hide SortCells;
    hide AgreedCells;
    hide IdsOf;
    assert Excluded(f, false) == Burned(f);
    hide Burned;
    NextSlice(cells, Burned(f), r.size, l, m);
    BurnedStep(f, r);
    IdsSplit(cells, l, m);
    hide Slice;
    forall id ensures id in Burned(AfterRun(f, r)) <==> id in IdsOf(cells[..m]) { IdsMembers(Issued(f, r), id); }
  }

  lemma {:induction false} SlicesBurned(r: AuditRun, k: nat, cells: seq<Cell>)
    requires DistinctItems(r.items) && r.size >= 0 && !r.includeExisting
    requires cells == SortCells(AgreedCells(r.items), r.rank)
    ensures BurnedUpTo(AfterRuns(Files(None, None), Repeated(r, k)), cells, Start(k, r.size, |cells|))
  {
    hide SortCells;
    hide AgreedCells;
    if k > 0 {
      SlicesBurned(r, k - 1, cells);
      SortedAgreedDistinct(r.items, r.rank);
      assert Repeated(r, k)[..k - 1] == Repeated(r, k - 1);
      StartStep(k - 1, r.size, |cells|);
      hide BurnedUpTo;
      SliceIssued(r, AfterRuns(Files(None, None), Repeated(r, k - 1)), cells, Start(k - 1, r.size, |cells|),
          Start(k, r.size, |cells|));
    }
  }

  /** While the agreed cells stay the same, run k issues exactly the k-th slice of the sorted
      candidates, until they are exhausted. */
  lemma RunsIssueSlices(r: AuditRun, k: nat, cells: seq<Cell>)
    requires DistinctItems(r.items) && r.size >= 0 && !r.includeExisting
    requires cells == SortCells(AgreedCells(r.items), r.rank)
    ensures Issued(AfterRuns(Files(None, None), Repeated(r, k)), r)
         == IdsOf(cells[Start(k, r.size, |cells|)..Start(k + 1, r.size, |cells|)])
  {
    SlicesBurned(r, k, cells);
    SortedAgreedDistinct(r.items, r.rank);
    StartStep(k, r.size, |cells|);
    hide *;
    SliceIssued(r, AfterRuns(Files(None, None), Repeated(r, k)), cells, Start(k, r.size, |cells|),
        Start(k + 1, r.size, |cells|));
  }

  // ----- Runs with `--include-existing-audit` -----

  function Historic(f: Files): set<AuditId> { if f.history.Some? then f.history.value else {} }

  function Keyed(f: Files): set<AuditId> { if f.key.Some? then Ids(f.key.value) else {} }

  /** What a flagged run un-burns: the ids of the key it overwrites that the history does not hold
      and that it does not issue itself. An ordinary run un-burns nothing. */
  lemma FlaggedForgets(f: Files, r: AuditRun, id: AuditId)
    ensures id in Burned(f) && id !in Burned(AfterRun(f, r)) <==>
              r.includeExisting && id in Keyed(f) && id !in Historic(f) && id !in Issued(f, r)
  {
    hide Issued;
  }

  /** An issued id reaches the history when the next run is an ordinary one. */
  ghost predicate Saved(f: Files, runs: seq<AuditRun>, id: AuditId) {
    || (runs != [] && !runs[0].includeExisting && id in Keyed(f))
    || exists k | 0 <= k < |runs| - 1 :: SavedAt(f, runs, k, id)
  }

  predicate SavedAt(f: Files, runs: seq<AuditRun>, k: nat, id: AuditId)
    requires k + 1 < |runs|
  {
    id in IssuedBy(f, runs, k) && !runs[k + 1].includeExisting
  }

  lemma HistoryStep(f: Files, r: AuditRun)
    ensures Historic(AfterRun(f, r)) == if r.includeExisting then Historic(f) else Historic(f) + Keyed(f)
    ensures Keyed(AfterRun(f, r)) == Ids(Issued(f, r))
  {
    hide Issued;
  }

  lemma SavedStep(f: Files, runs: seq<AuditRun>, n: nat, id: AuditId)
    requires |runs| == n + 1
    ensures Saved(f, runs, id) <==>
              Saved(f, runs[..n], id) || (!runs[n].includeExisting && id in Keyed(AfterRuns(f, runs[..n])))
  {
    hide IssuedBy;
    forall k | 0 <= k < n - 1 ensures SavedAt(f, runs, k, id) <==> SavedAt(f, runs[..n], k, id) {
      IssuedByPrefix(f, runs, n, k);
    }
    hide SavedAt;
    if n == 0 {
      assert runs[..0] == [];
    } else {
      LastKeyed(f, runs, n, id);
      assert n - 1 < |runs| - 1;
    }
  }

  lemma LastKeyed(f: Files, runs: seq<AuditRun>, n: nat, id: AuditId)
    requires 0 < n < |runs|
    ensures SavedAt(f, runs, n - 1, id) <==> !runs[n].includeExisting && id in Keyed(AfterRuns(f, runs[..n]))
  {
    assert runs[..n][..n - 1] == runs[..n - 1];
    HistoryStep(AfterRuns(f, runs[..n - 1]), runs[n - 1]);
    IdsMembers(IssuedBy(f, runs, n - 1), id);
    hide Issued;
    hide AfterRun;
  }

  lemma {:induction false} HistoryExactly(f: Files, runs: seq<AuditRun>, id: AuditId)
    ensures id in Historic(AfterRuns(f, runs)) <==> id in Historic(f) || Saved(f, runs, id)
  {
    if runs != [] {
      var n := |runs| - 1;
      HistoryExactly(f, runs[..n], id);
      SavedStep(f, runs, n, id);
      HistoryStep(AfterRuns(f, runs[..n]), runs[n]);
      hide Saved;
      hide Historic;
      hide Keyed;
      hide AfterRun;
    }
  }

  /** After any runs, flagged or not, an id is burned exactly when it was in the history, was saved
      by an ordinary run following the one that issued it, or was issued by the last run. */
  lemma BurnedExactly(f: Files, runs: seq<AuditRun>, id: AuditId)
    requires runs != []
    ensures id in Burned(AfterRuns(f, runs)) <==>
              id in Historic(f) || Saved(f, runs, id) || id in IssuedBy(f, runs, |runs| - 1)
  {
    HistoryExactly(f, runs, id);
    HistoryStep(AfterRuns(f, runs[..|runs| - 1]), runs[|runs| - 1]);
    IdsMembers(IssuedBy(f, runs, |runs| - 1), id);
    hide Saved;
    hide AfterRun;
    hide Issued;
  }

  /** A flagged repetition of the first run issues the very same cards again. */
  lemma IncludingReissues(r: AuditRun)
    ensures Issued(AfterRun(Files(None, None), r), r.(includeExisting := true)) == Issued(Files(None, None), r)
  {
    hide Selected;
  }

  /** So does an ordinary repetition, once a flagged run of size 0 has overwritten the key. */
  lemma FlaggedThenReissued(r: AuditRun)
    ensures var first := AfterRun(Files(None, None), r);
      Issued(AfterRun(first, r.(size := 0, includeExisting := true)), r) == Issued(Files(None, None), r)
  {
    var first := AfterRun(Files(None, None), r);
    SelectedNone(r.items, r.rank, Excluded(first, true));
    hide Selected;
    assert Burned(AfterRun(first, r.(size := 0, includeExisting := true))) == {};
  }

  lemma SelectedNone(items: seq<Item>, rank: Rank, excluded: set<AuditId>)
    ensures Selected(items, rank, 0, excluded) == []
  {
  }
}
