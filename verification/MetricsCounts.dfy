/** What the counts of the metrics count: rows and defects of the results, by their positions. */
module MetricsCounts {
  import opened Judge
  import opened Metrics

  // ---- Counting by position ----

  function Where(rows: seq<Row>, p: Row -> bool): set<int> {
    set i | 0 <= i < |rows| && p(rows[i])
  }

  lemma OneMoreWhere(rows: seq<Row>, p: Row -> bool)
    requires rows != []
    ensures |Where(rows, p)| == |Where(rows[..|rows| - 1], p)| + if p(rows[|rows| - 1]) then 1 else 0
  {
    var n := |rows| - 1;
    assert Where(rows, p) == if p(rows[n]) then Where(rows[..n], p) + {n} else Where(rows[..n], p);
  }

  lemma {:induction false} CountIsSize(rows: seq<Row>, p: Row -> bool)
    ensures Count(rows, p) == |Where(rows, p)|
  {
    if rows == [] {
      assert Where(rows, p) == {};
    } else {
      CountIsSize(rows[..|rows| - 1], p);
      OneMoreWhere(rows, p);
      hide Where;
    }
  }

  /** Counting among selected rows counts the rows that are both. */
  lemma {:induction false} CountOfSelected(rows: seq<Row>, p: Row -> bool, q: Row -> bool, both: Row -> bool)
    requires forall r :: both(r) <==> p(r) && q(r)
    ensures Count(Select(rows, p), q) == Count(rows, both)
  {
    if rows != [] {
      var before, last := rows[..|rows| - 1], rows[|rows| - 1];
      CountOfSelected(before, p, q, both);
      if p(last) {
        var selected := Select(before, p);
        assert (selected + [last])[..|selected|] == selected;
      } else {
        assert Select(before, p) + [] == Select(before, p);
      }
    }
  }

  lemma {:induction false} SumOfSelected(rows: seq<Row>, p: Row -> bool, f: Row -> int, g: Row -> int)
    requires forall r :: g(r) == if p(r) then f(r) else 0
    ensures SumOf(Select(rows, p), f) == SumOf(rows, g)
  {
    if rows != [] {
      var before, last := rows[..|rows| - 1], rows[|rows| - 1];
      SumOfSelected(before, p, f, g);
      if p(last) {
        var selected := Select(before, p);
        assert (selected + [last])[..|selected|] == selected;
      } else {
        assert Select(before, p) + [] == Select(before, p);
      }
    }
  }

  /** A row of the cell that was really judged. */
  function Judged(cell: string): Row -> bool {
    (r: Row) => r.cell == cell && !r.judgeError && !r.callFailed
  }

  lemma CountOfScored(rows: seq<Row>, cell: string, q: Row -> bool, both: Row -> bool)
    requires forall r :: both(r) <==> Judged(cell)(r) && q(r)
    ensures Count(ScoredRows(rows, cell), q) == |Where(rows, both)|
  {
    var scoreable := (r: Row) => Scoreable(r) && q(r);
    CountOfSelected(Select(rows, InCell(cell)), Scoreable, q, scoreable);
    CountOfSelected(rows, InCell(cell), scoreable, both);
    CountIsSize(rows, both);
    hide Count;
    hide Select;
    hide Where;
  }

  lemma {:induction false} AllAreCounted(rows: seq<Row>)
    ensures Count(rows, (r: Row) => true) == |rows|
  {
    if rows != [] {
      AllAreCounted(rows[..|rows| - 1]);
    }
  }

  /** The pass rate of a cell counts rows of the results: the passing ones among the judged, and the excluded ones. */
  lemma PassRateCounts(rows: seq<Row>, cell: string)
    ensures var rate := PassRateOf(rows, cell);
            && rate.k == |Where(rows, (r: Row) => r.cell == cell && !r.judgeError && !r.callFailed && r.itemPass)|
            && rate.n == |Where(rows, (r: Row) => r.cell == cell && !r.judgeError && !r.callFailed)|
            && rate.judgeErrors == |Where(rows, (r: Row) => r.cell == cell && r.judgeError)|
            && rate.callFailures == |Where(rows, (r: Row) => r.cell == cell && r.callFailed && !r.judgeError)|
  {
    var scored := ScoredRows(rows, cell);
    CountOfScored(rows, cell, (r: Row) => r.itemPass,
                  (r: Row) => r.cell == cell && !r.judgeError && !r.callFailed && r.itemPass);
    AllAreCounted(scored);
    CountOfScored(rows, cell, (r: Row) => true, (r: Row) => r.cell == cell && !r.judgeError && !r.callFailed);
    var errors := (r: Row) => r.cell == cell && r.judgeError;
    var failures := (r: Row) => r.cell == cell && r.callFailed && !r.judgeError;
    CountOfSelected(rows, InCell(cell), (r: Row) => r.judgeError, errors);
    CountOfSelected(rows, InCell(cell), (r: Row) => r.callFailed && !r.judgeError, failures);
    CountIsSize(rows, errors);
    CountIsSize(rows, failures);
    hide Count;
    hide Select;
    hide Where;
  }

  // ---- Defects ----

  function FoundAt(defects: seq<Defect>): set<int> {
    set j | 0 <= j < |defects| && defects[j].found
  }

  lemma {:induction false} FoundIsSize(defects: seq<Defect>)
    ensures FoundIn(defects) == |FoundAt(defects)|
  {
    if defects == [] {
      assert FoundAt(defects) == {};
    } else {
      var n := |defects| - 1;
      FoundIsSize(defects[..n]);
      assert FoundAt(defects) == if defects[n].found then FoundAt(defects[..n]) + {n} else FoundAt(defects[..n]);
    }
  }

  /** The defects found in the rows that some condition picks: which row, and which of its defects. */
  function FoundPairs(rows: seq<Row>, p: Row -> bool): set<(int, int)> {
    set i, j | 0 <= i < |rows| && p(rows[i]) && 0 <= j < |rows[i].defects| && rows[i].defects[j].found :: (i, j)
  }

  /** The defects seeded in the rows that some condition picks, by their ids. */
  function SeededPairs(rows: seq<Row>, p: Row -> bool): set<(int, string)> {
    set i, id | 0 <= i < |rows| && p(rows[i]) && id in Ids(rows[i].defects) :: (i, id)
  }

  function Paired<T(==)>(n: int, s: set<T>): set<(int, T)> {
    set x | x in s :: (n, x)
  }

  lemma {:induction false} PairsAreAsMany<T>(n: int, s: set<T>)
    ensures |Paired(n, s)| == |s|
    decreases |s|
  {
    if s == {} {
      assert Paired(n, s) == {};
    } else {
      var y :| y in s;
      PairsAreAsMany(n, s - {y});
      assert Paired(n, s) == Paired(n, s - {y}) + {(n, y)};
    }
  }

  lemma FoundPairsSplit(rows: seq<Row>, p: Row -> bool)
    requires rows != []
    ensures var n := |rows| - 1;
            var added := if p(rows[n]) then Paired(n, FoundAt(rows[n].defects)) else {};
            FoundPairs(rows, p) == FoundPairs(rows[..n], p) + added && FoundPairs(rows[..n], p) !! added
  {
  }

  lemma OneMoreFound(rows: seq<Row>, p: Row -> bool)
    requires rows != []
    ensures var n := |rows| - 1;
            |FoundPairs(rows, p)| == |FoundPairs(rows[..n], p)| + if p(rows[n]) then FoundIn(rows[n].defects) else 0
  {
    FoundPairsSplit(rows, p);
    hide FoundPairs;
    var defects := rows[|rows| - 1].defects;
    PairsAreAsMany(|rows| - 1, FoundAt(defects));
    FoundIsSize(defects);
    hide Paired;
  }

  lemma SeededPairsSplit(rows: seq<Row>, p: Row -> bool)
    requires rows != []
    ensures var n := |rows| - 1;
            var added := if p(rows[n]) then Paired(n, Ids(rows[n].defects)) else {};
            SeededPairs(rows, p) == SeededPairs(rows[..n], p) + added && SeededPairs(rows[..n], p) !! added
  {
    hide Ids;
  }

  lemma OneMoreSeeded(rows: seq<Row>, p: Row -> bool)
    requires rows != []
    ensures var n := |rows| - 1;
            |SeededPairs(rows, p)| == |SeededPairs(rows[..n], p)| + if p(rows[n]) then |Ids(rows[n].defects)| else 0
  {
    SeededPairsSplit(rows, p);
    hide SeededPairs;
    hide Ids;
    PairsAreAsMany(|rows| - 1, Ids(rows[|rows| - 1].defects));
    hide Paired;
  }

  lemma {:induction false} FoundSumIsSize(rows: seq<Row>, p: Row -> bool, f: Row -> int)
    requires forall r :: f(r) == if p(r) then FoundIn(r.defects) else 0
    ensures SumOf(rows, f) == |FoundPairs(rows, p)|
  {
    hide FoundIn;
    if rows == [] {
      assert FoundPairs(rows, p) == {};
    } else {
      FoundSumIsSize(rows[..|rows| - 1], p, f);
      OneMoreFound(rows, p);
      hide FoundPairs;
    }
  }

  lemma {:induction false} SeededSumIsSize(rows: seq<Row>, p: Row -> bool, f: Row -> int)
    requires forall r :: f(r) == if p(r) then |Ids(r.defects)| else 0
    ensures SumOf(rows, f) == |SeededPairs(rows, p)|
  {
    hide Ids;
    if rows == [] {
      assert SeededPairs(rows, p) == {};
    } else {
      SeededSumIsSize(rows[..|rows| - 1], p, f);
      OneMoreSeeded(rows, p);
      hide SeededPairs;
    }
  }

  // ---- Confusion and recall ----

  /** A judged row of the cell with seeded defects. */
  function Seeded(cell: string): Row -> bool {
    (r: Row) => r.cell == cell && !r.judgeError && !r.callFailed && r.seeded
  }

  /** The review raised something: a finding that is none, or one of the defects. */
  predicate Raises(r: Row) {
    r.falseFindings > 0 || !(forall j :: 0 <= j < |r.defects| ==> !r.defects[j].found)
  }

  lemma FoundCounts(rows: seq<Row>, cell: string)
    ensures SumOf(ScoredRows(rows, cell), SeededFound) == |FoundPairs(rows, Seeded(cell))|
    ensures SumOf(ScoredRows(rows, cell), SeededTotal) == |SeededPairs(rows, Seeded(cell))|
  {
    hide FoundIn;
    hide Ids;
    var inCell := Select(rows, InCell(cell));
    var found := (r: Row) => if Scoreable(r) then SeededFound(r) else 0;
    var found' := (r: Row) => if Seeded(cell)(r) then FoundIn(r.defects) else 0;
    var total := (r: Row) => if Scoreable(r) then SeededTotal(r) else 0;
    var total' := (r: Row) => if Seeded(cell)(r) then |Ids(r.defects)| else 0;
    forall r: Row ensures found'(r) == if InCell(cell)(r) then found(r) else 0 {
      assert Seeded(cell)(r) <==> InCell(cell)(r) && Scoreable(r) && r.seeded;
    }
    forall r: Row ensures total'(r) == if InCell(cell)(r) then total(r) else 0 {
      assert Seeded(cell)(r) <==> InCell(cell)(r) && Scoreable(r) && r.seeded;
    }
    SumOfSelected(inCell, Scoreable, SeededFound, found);
    SumOfSelected(rows, InCell(cell), found, found');
    FoundSumIsSize(rows, Seeded(cell), found');
    SumOfSelected(inCell, Scoreable, SeededTotal, total);
    SumOfSelected(rows, InCell(cell), total, total');
    SeededSumIsSize(rows, Seeded(cell), total');
    hide SumOf;
    hide Select;
    hide FoundPairs;
    hide SeededPairs;
  }

  lemma FlaggedMeans(r: Row)
    ensures Flagged(r) <==> Raises(r)
  {
  }

  /** The judged rows by whether they are seeded and whether they raise something. */
  function Outcome(cell: string, seeded: bool, raises: bool): Row -> bool {
    (r: Row) => r.cell == cell && !r.judgeError && !r.callFailed && r.seeded == seeded && Raises(r) == raises
  }

  lemma ScoredBy(rows: seq<Row>, cell: string, seeded: bool, raises: bool)
    ensures Count(ScoredRows(rows, cell), (r: Row) => r.seeded == seeded && Flagged(r) == raises)
         == |Where(rows, Outcome(cell, seeded, raises))|
  {
    forall r ensures Flagged(r) <==> Raises(r) {
      FlaggedMeans(r);
    }
    hide Flagged;
    hide Raises;
    hide Count;
    hide Where;
    CountOfScored(rows, cell, (r: Row) => r.seeded == seeded && Flagged(r) == raises, Outcome(cell, seeded, raises));
  }

  lemma {:induction false} SameCount(rows: seq<Row>, p: Row -> bool, q: Row -> bool)
    requires forall r :: p(r) <==> q(r)
    ensures Count(rows, p) == Count(rows, q)
  {
    if rows != [] {
      SameCount(rows[..|rows| - 1], p, q);
    }
  }

  /**
   * Every counter of a confusion, over the rows of the results: judged rows of the cell by whether defects were
   * seeded and whether the review raised something, the defects found in seeded rows, and all those seeded there.
   */
  lemma ConfusionCounts(rows: seq<Row>, cell: string, c: Confusion)
    requires CountsRows(c, ScoredRows(rows, cell))
    ensures c.tp == |Where(rows, Outcome(cell, true, true))| && c.fn == |Where(rows, Outcome(cell, true, false))|
    ensures c.fp == |Where(rows, Outcome(cell, false, true))| && c.tn == |Where(rows, Outcome(cell, false, false))|
    ensures c.n == |Where(rows, Judged(cell))|
    ensures c.found == |FoundPairs(rows, Seeded(cell))| && c.total == |SeededPairs(rows, Seeded(cell))|
  {
    FoundCounts(rows, cell);
    var scored := ScoredRows(rows, cell);
    ScoredBy(rows, cell, true, true);
    ScoredBy(rows, cell, true, false);
    ScoredBy(rows, cell, false, true);
    ScoredBy(rows, cell, false, false);
    SameCount(scored, (r: Row) => r.seeded == true && Flagged(r) == true, (r: Row) => r.seeded && Flagged(r));
    SameCount(scored, (r: Row) => r.seeded == true && Flagged(r) == false, (r: Row) => r.seeded && !Flagged(r));
    SameCount(scored, (r: Row) => r.seeded == false && Flagged(r) == true, (r: Row) => !r.seeded && Flagged(r));
    SameCount(scored, (r: Row) => r.seeded == false && Flagged(r) == false, (r: Row) => !r.seeded && !Flagged(r));
    AllAreCounted(ScoredRows(rows, cell));
    CountOfScored(rows, cell, (r: Row) => true, Judged(cell));
    hide Count;
    hide Select;
    hide SumOf;
    hide Where;
    hide FoundPairs;
    hide SeededPairs;
    hide Flagged;
    hide Raises;
  }

  // ---- What recall says ----

  lemma {:induction false} SumsAgreeExactly(rows: seq<Row>, f: Row -> int, g: Row -> int)
    requires forall i :: 0 <= i < |rows| ==> f(rows[i]) <= g(rows[i])
    ensures SumOf(rows, f) <= SumOf(rows, g)
    ensures SumOf(rows, f) == SumOf(rows, g) <==> forall i :: 0 <= i < |rows| ==> f(rows[i]) == g(rows[i])
  {
    if rows != [] {
      var n := |rows| - 1;
      var before := rows[..n];
      assert forall i :: 0 <= i < n ==> before[i] == rows[i];
      SumsAgreeExactly(before, f, g);
    }
  }

  lemma {:induction false} FoundAllExactly(defects: seq<Defect>)
    ensures FoundIn(defects) == |defects| <==> forall j :: 0 <= j < |defects| ==> defects[j].found
  {
    if defects != [] {
      var n := |defects| - 1;
      var before := defects[..n];
      assert forall j :: 0 <= j < n ==> before[j] == defects[j];
      FoundAllExactly(before);
    }
  }

  ghost predicate AllFoundIn(rows: seq<Row>, cell: string) {
    forall i, j :: 0 <= i < |rows| && Seeded(cell)(rows[i]) && 0 <= j < |rows[i].defects| ==> rows[i].defects[j].found
  }

  ghost predicate NoneFoundIn(rows: seq<Row>, cell: string) {
    forall i, j :: 0 <= i < |rows| && Seeded(cell)(rows[i]) && 0 <= j < |rows[i].defects| ==> !rows[i].defects[j].found
  }

  lemma AcceptedIdsAreDistinct(r: Row)
    requires AcceptedRow(r) && Scoreable(r)
    ensures |Ids(r.defects)| == |r.defects|
    ensures r.itemPass <==>
              if r.defects != [] then forall j :: 0 <= j < |r.defects| ==> r.defects[j].found else r.falseFindings == 0
  {
    DistinctIdsCount(r.defects);
    if r.defects != [] {
      assert r.defects[0].id in Ids(r.defects);
    } else {
      assert Ids(r.defects) == {};
    }
  }

  /**
   * Over rows that the judge's validator accepted, recall is complete exactly when every defect seeded in a judged
   * row was found, and nothing exactly when none was.
   */
  lemma RecallMeans(rows: seq<Row>, cell: string, c: Confusion)
    requires forall i :: 0 <= i < |rows| ==> AcceptedRow(rows[i])
    requires CountsRows(c, ScoredRows(rows, cell))
    ensures c.found == c.total <==> AllFoundIn(rows, cell)
    ensures c.found == 0 <==> NoneFoundIn(rows, cell)
  {
    hide *;
    ConfusionCounts(rows, cell, c);
    NoneFoundExactly(rows, cell);
    AllFoundExactly(rows, cell);
  }

  lemma NoneFoundExactly(rows: seq<Row>, cell: string)
    ensures |FoundPairs(rows, Seeded(cell))| == 0 <==> NoneFoundIn(rows, cell)
  {
    var pairs := FoundPairs(rows, Seeded(cell));
    if NoneFoundIn(rows, cell) {
      assert pairs == {};
    } else {
      var i, j :| 0 <= i < |rows| && Seeded(cell)(rows[i]) && 0 <= j < |rows[i].defects| && rows[i].defects[j].found;
      assert (i, j) in pairs;
    }
  }

  lemma AllFoundExactly(rows: seq<Row>, cell: string)
    requires forall i :: 0 <= i < |rows| ==> AcceptedRow(rows[i])
    ensures |FoundPairs(rows, Seeded(cell))| == |SeededPairs(rows, Seeded(cell))| <==> AllFoundIn(rows, cell)
  {
    hide AcceptedRow;
    hide FoundIn;
    hide Ids;
    var found := (r: Row) => if Seeded(cell)(r) then FoundIn(r.defects) else 0;
    var total := (r: Row) => if Seeded(cell)(r) then |Ids(r.defects)| else 0;
    FoundSumIsSize(rows, Seeded(cell), found);
    SeededSumIsSize(rows, Seeded(cell), total);
    hide FoundPairs;
    hide SeededPairs;
    forall i | 0 <= i < |rows|
      ensures found(rows[i]) <= total(rows[i])
      ensures found(rows[i]) == total(rows[i]) <==>
                (Seeded(cell)(rows[i]) ==> forall j :: 0 <= j < |rows[i].defects| ==> rows[i].defects[j].found)
    {
      if Seeded(cell)(rows[i]) {
        AcceptedIdsAreDistinct(rows[i]);
        FoundAllExactly(rows[i].defects);
      }
    }
    SumsAgreeExactly(rows, found, total);
  }
}
