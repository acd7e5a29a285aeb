/** Pass rates, confusion counts, recall and paired flips over judge rows. */
module Metrics {
  import opened Prelude
  import opened Judge
  import opened Wilson
  import opened McNemar

  datatype Row = Row(
    cell: string,
    item: string,
    judgeError: bool,
    callFailed: bool,
    seeded: bool,
    itemPass: bool,
    defects: seq<Defect>,
    falseFindings: int,
    neutralMatched: int)

  predicate Scoreable(r: Row) {
    !r.judgeError && !r.callFailed
  }

  function Count(rows: seq<Row>, p: Row -> bool): (n: nat)
    ensures n <= |rows|
  {
    if rows == [] then 0 else Count(rows[..|rows| - 1], p) + if p(rows[|rows| - 1]) then 1 else 0
  }

  function Select(rows: seq<Row>, p: Row -> bool): seq<Row> {
    if rows == [] then []
    else Select(rows[..|rows| - 1], p) + if p(rows[|rows| - 1]) then [rows[|rows| - 1]] else []
  }

  function InCell(cell: string): Row -> bool {
    (r: Row) => r.cell == cell
  }

  function ScoredRows(rows: seq<Row>, cell: string): seq<Row> {
    Select(Select(rows, InCell(cell)), Scoreable)
  }

  lemma {:induction false} SelectCounts(rows: seq<Row>, p: Row -> bool)
    ensures |Select(rows, p)| == Count(rows, p)
  {
    if rows != [] {
      SelectCounts(rows[..|rows| - 1], p);
    }
  }

  // ---- Pass rate ----

  datatype PassRate = PassRate(k: nat, n: nat, judgeErrors: nat, callFailures: nat)

  function PassRateOf(rows: seq<Row>, cell: string): PassRate {
    var cellRows := Select(rows, InCell(cell));
    var scored := Select(cellRows, Scoreable);
    PassRate(Count(scored, (r: Row) => r.itemPass), |scored|,
             Count(cellRows, (r: Row) => r.judgeError),
             Count(cellRows, (r: Row) => r.callFailed && !r.judgeError))
  }

  lemma {:induction false} ScoredAndExcluded(rows: seq<Row>)
    ensures Count(rows, Scoreable) + Count(rows, (r: Row) => r.judgeError)
          + Count(rows, (r: Row) => r.callFailed && !r.judgeError) == |rows|
  {
    if rows != [] {
      ScoredAndExcluded(rows[..|rows| - 1]);
    }
  }

  /**
   * Every row of the cell is scored or excluded for exactly one reason, passes never exceed scored rows, and
   * the interval reported with them lies in the unit interval around the observed rate.
   */
  lemma PassRateIsWellFormed(rows: seq<Row>, cell: string, z: real, root: real)
    ensures var r := PassRateOf(rows, cell);
            && r.n + r.judgeErrors + r.callFailures == Count(rows, InCell(cell))
            && r.k <= r.n
            && (0 < r.n && z >= 0.0 && IsRoot(root, Radicand(r.k, r.n, z)) ==>
                  var (low, high) := WilsonCi(r.k, r.n, z, root);
                  0.0 <= low <= Rate(r.k, r.n) <= high <= 1.0)
  {
    var r := PassRateOf(rows, cell);
    var cellRows := Select(rows, InCell(cell));
    ScoredAndExcluded(cellRows);
    SelectCounts(cellRows, Scoreable);
    SelectCounts(rows, InCell(cell));
    hide WilsonCi;
    hide Radicand;
    if 0 < r.n && z >= 0.0 && IsRoot(root, Radicand(r.k, r.n, z)) {
      IntervalContainsRate(r.k, r.n, z, root);
    }
  }

  // ---- Confusion and recall ----

  predicate Flagged(r: Row) {
    r.falseFindings > 0 || exists i :: 0 <= i < |r.defects| && r.defects[i].found
  }

  function FoundIn(defects: seq<Defect>): (n: nat)
    ensures n <= |defects|
  {
    if defects == [] then 0 else FoundIn(defects[..|defects| - 1]) + if defects[|defects| - 1].found then 1 else 0
  }

  function SumOf(rows: seq<Row>, f: Row -> int): int {
    if rows == [] then 0 else SumOf(rows[..|rows| - 1], f) + f(rows[|rows| - 1])
  }

  datatype Confusion = Confusion(
    tp: nat, fp: nat, tn: nat, fn: nat, n: nat, found: nat, total: nat,
    falseFindings: int, falseFindingsClean: int, neutralMatched: int)

  function SeededFound(r: Row): int {
    if r.seeded then FoundIn(r.defects) else 0
  }

  function SeededTotal(r: Row): int {
    if r.seeded then |Ids(r.defects)| else 0
  }

  ghost predicate CountsRows(c: Confusion, rows: seq<Row>) {
    && c.tp == Count(rows, (r: Row) => r.seeded && Flagged(r))
    && c.fn == Count(rows, (r: Row) => r.seeded && !Flagged(r))
    && c.fp == Count(rows, (r: Row) => !r.seeded && Flagged(r))
    && c.tn == Count(rows, (r: Row) => !r.seeded && !Flagged(r))
    && c.n == |rows|
    && c.found == SumOf(rows, SeededFound)
    && c.total == SumOf(rows, SeededTotal)
    && c.falseFindings == SumOf(rows, (r: Row) => r.falseFindings)
    && c.falseFindingsClean == SumOf(rows, (r: Row) => if r.seeded then 0 else r.falseFindings)
    && c.neutralMatched == SumOf(rows, (r: Row) => r.neutralMatched)
  }

  /** One pass over the scored rows of a cell, each counter being what its name says. */
  method ConfusionOf(rows: seq<Row>, cell: string) returns (c: Confusion)
    ensures CountsRows(c, ScoredRows(rows, cell))
    ensures c.tp + c.fp + c.tn + c.fn == c.n == PassRateOf(rows, cell).n
  {
    hide Flagged;
    hide FoundIn;
    hide Ids;
    var cellRows := ScoredRows(rows, cell);
    c := Confusion(0, 0, 0, 0, 0, 0, 0, 0, 0, 0);
    for i := 0 to |cellRows|
      invariant CountsRows(c, cellRows[..i]) && c.tp + c.fp + c.tn + c.fn == i
    {
      var r := cellRows[i];
      assert cellRows[..i + 1][..i] == cellRows[..i];
      var flagged := Flagged(r);
      if r.seeded && flagged {
        c := c.(tp := c.tp + 1);
      } else if r.seeded && !flagged {
        c := c.(fn := c.fn + 1);
      } else if !r.seeded && flagged {
        c := c.(fp := c.fp + 1);
      } else {
        c := c.(tn := c.tn + 1);
      }
      if r.seeded {
        c := c.(total := c.total + |Ids(r.defects)|, found := c.found + FoundIn(r.defects));
      } else {
        c := c.(falseFindingsClean := c.falseFindingsClean + r.falseFindings);
      }
      c := c.(falseFindings := c.falseFindings + r.falseFindings,
              neutralMatched := c.neutralMatched + r.neutralMatched, n := i + 1);
    }
    assert cellRows[..|cellRows|] == cellRows;
  }

  lemma {:induction false} DistinctIdsCount(defects: seq<Defect>)
    requires DistinctIds(defects)
    ensures |Ids(defects)| == |defects|
  {
    if defects != [] {
      var rest, last := defects[..|defects| - 1], defects[|defects| - 1];
      DistinctIdsCount(rest);
      assert Ids(defects) == Ids(rest) + {last.id};
      assert last.id !in Ids(rest);
    }
  }

  /** The grade of a row, or no grade for an excluded one, passed the judge's validator for some ground truth. */
  ghost predicate AcceptedRow(r: Row) {
    Scoreable(r) ==>
      exists truth: set<string> :: Consistent(Grade(r.itemPass, r.defects, r.falseFindings, r.neutralMatched), truth)
  }

  lemma {:induction false} FoundWithinTotal(rows: seq<Row>)
    requires forall i :: 0 <= i < |rows| ==> DistinctIds(rows[i].defects)
    ensures 0 <= SumOf(rows, SeededFound) <= SumOf(rows, SeededTotal)
  {
    hide FoundIn;
    hide Ids;
    if rows != [] {
      FoundWithinTotal(rows[..|rows| - 1]);
      DistinctIdsCount(rows[|rows| - 1].defects);
    }
  }

  lemma {:induction false} SelectKeeps(rows: seq<Row>, p: Row -> bool)
    ensures forall i :: 0 <= i < |Select(rows, p)| ==> p(Select(rows, p)[i]) && Select(rows, p)[i] in rows
  {
    if rows != [] {
      SelectKeeps(rows[..|rows| - 1], p);
    }
  }

  /** Over rows that the judge's validator accepted, recall never exceeds one and its interval contains it. */
  lemma RecallIsARate(rows: seq<Row>, cell: string, c: Confusion, z: real, root: real)
    requires forall i :: 0 <= i < |rows| ==> AcceptedRow(rows[i])
    requires CountsRows(c, ScoredRows(rows, cell))
    ensures c.found <= c.total
    ensures 0 < c.total && z >= 0.0 && IsRoot(root, Radicand(c.found, c.total, z)) ==>
              var (low, high) := WilsonCi(c.found, c.total, z, root);
              0.0 <= low <= Rate(c.found, c.total) <= high <= 1.0
  {
    FoundNeverExceedsTotal(rows, cell, c);
    hide *;
    if 0 < c.total && z >= 0.0 && IsRoot(root, Radicand(c.found, c.total, z)) {
      IntervalContainsRate(c.found, c.total, z, root);
    }
  }

  lemma FoundNeverExceedsTotal(rows: seq<Row>, cell: string, c: Confusion)
    requires forall i :: 0 <= i < |rows| ==> AcceptedRow(rows[i])
    requires CountsRows(c, ScoredRows(rows, cell))
    ensures c.found <= c.total
  {
    var scored := ScoredRows(rows, cell);
    SelectKeeps(rows, InCell(cell));
    SelectKeeps(Select(rows, InCell(cell)), Scoreable);
    forall i | 0 <= i < |scored| ensures DistinctIds(scored[i].defects) {
      var r := scored[i];
      assert r in Select(rows, InCell(cell)) && Scoreable(r);
      assert r in rows && AcceptedRow(r);
    }
    hide Select;
    hide Count;
    FoundWithinTotal(scored);
  }

  // ---- Paired flips ----

  /** The row that counts for an item in a cell: the last one. */
  function LastRow(rows: seq<Row>, cell: string, item: string): Option<Row> {
    if rows == [] then None
    else
      var last := rows[|rows| - 1];
      if last.cell == cell && last.item == item then Some(last) else LastRow(rows[..|rows| - 1], cell, item)
  }

  /** The two verdicts on an item, if both cells gave a real one. */
  function Verdicts(a: Option<Row>, b: Option<Row>): Option<(bool, bool)> {
    if a.Some? && b.Some? && Scoreable(a.value) && Scoreable(b.value)
        then Some((a.value.itemPass, b.value.itemPass)) else None
  }

  function Items(rows: seq<Row>): set<string> {
    set i | 0 <= i < |rows| :: rows[i].item
  }

  /** The items, among some, on which the two cells gave the given verdicts. */
  function ItemsWith(rows: seq<Row>, cellA: string, cellB: string, items: set<string>,
                     verdicts: (bool, bool)): set<string> {
    set item | item in items && Verdicts(LastRow(rows, cellA, item), LastRow(rows, cellB, item)) == Some(verdicts)
  }

  datatype Flips = Flips(bothPass: nat, bothFail: nat, onlyA: nat, onlyB: nat)

  function FlipsAmong(rows: seq<Row>, cellA: string, cellB: string, items: set<string>): Flips {
    Flips(|ItemsWith(rows, cellA, cellB, items, (true, true))|, |ItemsWith(rows, cellA, cellB, items, (false, false))|,
          |ItemsWith(rows, cellA, cellB, items, (true, false))|, |ItemsWith(rows, cellA, cellB, items, (false, true))|)
  }

  function FlipsOf(rows: seq<Row>, cellA: string, cellB: string): Flips {
    FlipsAmong(rows, cellA, cellB, Items(rows))
  }

  lemma OneMoreItem(rows: seq<Row>, cellA: string, cellB: string, items: set<string>, item: string,
                    verdicts: (bool, bool))
    requires item !in items
    ensures |ItemsWith(rows, cellA, cellB, items + {item}, verdicts)|
         == |ItemsWith(rows, cellA, cellB, items, verdicts)|
            + if Verdicts(LastRow(rows, cellA, item), LastRow(rows, cellB, item)) == Some(verdicts) then 1 else 0
  {
    hide LastRow;
    hide Verdicts;
    var before := ItemsWith(rows, cellA, cellB, items, verdicts);
    var after := ItemsWith(rows, cellA, cellB, items + {item}, verdicts);
    if Verdicts(LastRow(rows, cellA, item), LastRow(rows, cellB, item)) == Some(verdicts) {
      assert after == before + {item};
    } else {
      assert after == before;
    }
  }

  /** The rows that count, indexed by item: absent items have no row in either cell. */
  ghost predicate Indexed(byItem: map<string, (Option<Row>, Option<Row>)>, rows: seq<Row>, cellA: string,
                          cellB: string) {
    && byItem.Keys <= Items(rows)
    && forall item ::
         (LastRow(rows, cellA, item), LastRow(rows, cellB, item))
         == if item in byItem then byItem[item] else (None, None)
  }

  lemma IndexOneMore(byItem: map<string, (Option<Row>, Option<Row>)>, rows: seq<Row>, cellA: string, cellB: string,
                     i: nat)
    requires i < |rows| && Indexed(byItem, rows[..i], cellA, cellB)
    ensures var r := rows[i];
            var (a, b) := if r.item in byItem then byItem[r.item] else (None, None);
            Indexed(if r.cell != cellA && r.cell != cellB then byItem
                    else byItem[r.item := (if r.cell == cellA then Some(r) else a,
                                           if r.cell == cellB then Some(r) else b)],
                    rows[..i + 1], cellA, cellB)
  {
    assert rows[..i + 1][..i] == rows[..i];
    assert Items(rows[..i + 1]) == Items(rows[..i]) + {rows[i].item};
  }

  /** The two-by-two table of paired verdicts, counted over the items. */
  method PairedFlips(rows: seq<Row>, cellA: string, cellB: string) returns (flips: Flips)
    ensures flips == FlipsOf(rows, cellA, cellB)
  {
    var byItem: map<string, (Option<Row>, Option<Row>)> := map[];
    assert Indexed(byItem, rows[..0], cellA, cellB);
    hide Indexed;
    for i := 0 to |rows|
      invariant Indexed(byItem, rows[..i], cellA, cellB)
    {
      var r := rows[i];
      IndexOneMore(byItem, rows, cellA, cellB, i);
      if r.cell != cellA && r.cell != cellB {
        continue;
      }
      var (a, b) := if r.item in byItem then byItem[r.item] else (None, None);
      byItem := byItem[r.item := (if r.cell == cellA then Some(r) else a, if r.cell == cellB then Some(r) else b)];
    }
    assert rows[..|rows|] == rows;
    flips := CountFlips(byItem, rows, cellA, cellB);
  }

  method CountFlips(byItem: map<string, (Option<Row>, Option<Row>)>, ghost rows: seq<Row>, ghost cellA: string,
                    ghost cellB: string)
    returns (flips: Flips)
    requires Indexed(byItem, rows, cellA, cellB)
    ensures flips == FlipsOf(rows, cellA, cellB)
  {
    hide LastRow;
    hide Items;
    hide ItemsWith;
    hide Scoreable;
    flips := Flips(0, 0, 0, 0);
    var remaining := byItem.Keys;
    ghost var done: set<string> := {};
    NoItems(rows, cellA, cellB);
    while remaining != {}
      invariant done + remaining == byItem.Keys && done !! remaining
      invariant flips == FlipsAmong(rows, cellA, cellB, done)
      decreases |remaining|
    {
      var item :| item in remaining;
      var (a, b) := byItem[item];
      OneMoreItem(rows, cellA, cellB, done, item, (true, true));
      OneMoreItem(rows, cellA, cellB, done, item, (false, false));
      OneMoreItem(rows, cellA, cellB, done, item, (true, false));
      OneMoreItem(rows, cellA, cellB, done, item, (false, true));
      remaining, done := remaining - {item}, done + {item};
      if a.None? || b.None? {
        continue;
      }
      if !Scoreable(a.value) || !Scoreable(b.value) {
        continue;
      }
      if a.value.itemPass && b.value.itemPass {
        flips := flips.(bothPass := flips.bothPass + 1);
      } else if !a.value.itemPass && !b.value.itemPass {
        flips := flips.(bothFail := flips.bothFail + 1);
      } else if a.value.itemPass && !b.value.itemPass {
        flips := flips.(onlyA := flips.onlyA + 1);
      } else {
        flips := flips.(onlyB := flips.onlyB + 1);
      }
    }
    assert done == byItem.Keys;
    RestDoesNotCount(byItem, rows, cellA, cellB);
  }

  lemma NoItems(rows: seq<Row>, cellA: string, cellB: string)
    ensures FlipsAmong(rows, cellA, cellB, {}) == Flips(0, 0, 0, 0)
  {
    hide LastRow;
    assert forall v :: ItemsWith(rows, cellA, cellB, {}, v) == {};
  }

  lemma RestDoesNotCount(byItem: map<string, (Option<Row>, Option<Row>)>, rows: seq<Row>, cellA: string, cellB: string)
    requires Indexed(byItem, rows, cellA, cellB)
    ensures FlipsAmong(rows, cellA, cellB, byItem.Keys) == FlipsOf(rows, cellA, cellB)
  {
    hide LastRow;
    hide Items;
    forall v ensures ItemsWith(rows, cellA, cellB, byItem.Keys, v) == ItemsWith(rows, cellA, cellB, Items(rows), v) {
      forall item | item in ItemsWith(rows, cellA, cellB, Items(rows), v) ensures item in byItem {
        assert (LastRow(rows, cellA, item), LastRow(rows, cellB,
                                                    item)) == if item in byItem then byItem[item] else (None, None);
      }
    }
  }

  /** The significance of the flips does not depend on which cell is named first. */
  lemma ComparisonIsSymmetric(rows: seq<Row>, cellA: string, cellB: string)
    ensures var f, g := FlipsOf(rows, cellA, cellB), FlipsOf(rows, cellB, cellA);
            && f == Flips(g.bothPass, g.bothFail, g.onlyB, g.onlyA)
            && McNemarP(f.onlyA, f.onlyB) == McNemarP(g.onlyA, g.onlyB)
  {
    hide LastRow;
    hide McNemarP;
    forall x: bool, y: bool
      ensures ItemsWith(rows, cellA, cellB, Items(rows), (x, y)) == ItemsWith(rows, cellB, cellA, Items(rows), (y, x))
    {
    }
    var f := FlipsOf(rows, cellA, cellB);
    McNemarIsExact(f.onlyA, f.onlyB);
  }
}
