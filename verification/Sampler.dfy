/** The stratified spot-check sample: one judged row per cell per round, up to a limit. */
module Sampler {
  import opened Prelude
  import opened Ordering

  datatype Judged = Judged(cell: Option<string>, judgeError: bool, callFailed: bool, content: string)

  type Shuffle = (Option<string>, seq<Judged>) -> seq<Judged>

  /** A shuffle reorders each cell's rows and does nothing else. */
  ghost predicate Shuffles(shuffle: Shuffle) {
    forall cell, rows :: multiset(shuffle(cell, rows)) == multiset(rows)
  }

  predicate RealDecision(r: Judged) {
    !r.judgeError && !r.callFailed
  }

  /** The real decisions, in order. */
  function Graded(judges: seq<Judged>): seq<Judged> {
    if judges == [] then []
    else Graded(judges[..|judges| - 1]) + if RealDecision(judges[|judges| - 1]) then [judges[|judges| - 1]] else []
  }

  /** The decisions of a named cell: the rows that can be sampled. */
  function Eligible(graded: seq<Judged>): seq<Judged> {
    if graded == [] then []
    else Eligible(graded[..|graded| - 1]) + if graded[|graded| - 1].cell.Some? then [graded[|graded| - 1]] else []
  }

  function OfCell(rows: seq<Judged>, cell: Option<string>): seq<Judged> {
    if rows == [] then []
    else
      var last := rows[|rows| - 1];
      OfCell(rows[..|rows| - 1], cell) + if last.cell == cell then [last] else []
  }

  /** A row that may be spot-checked: a judge really decided on it, and it belongs to a named cell. */
  predicate Candidate(r: Judged) {
    r.cell.Some? && !r.judgeError && !r.callFailed
  }

  function CandidatesAt(judges: seq<Judged>): set<int> {
    set i | 0 <= i < |judges| && Candidate(judges[i])
  }

  /** The eligible rows are exactly the candidates, each as often as it occurs. */
  lemma {:induction false} EligibleExactly(judges: seq<Judged>)
    ensures |Eligible(Graded(judges))| == |CandidatesAt(judges)|
    ensures forall r :: multiset(Eligible(Graded(judges)))[r] == if Candidate(r) then multiset(judges)[r] else 0
  {
    if judges == [] {
      assert CandidatesAt(judges) == {};
    } else {
      var n := |judges| - 1;
      var init, last := judges[..n], judges[n];
      EligibleExactly(init);
      EligibleOneMore(init, last);
      OneMoreCandidate(judges);
      hide *;
      assert judges == init + [last];
      forall r ensures multiset(Eligible(Graded(judges)))[r] == if Candidate(r) then multiset(judges)[r] else 0 {
        CountWithLast(init, last, r);
        if Candidate(last) {
          CountWithLast(Eligible(Graded(init)), last, r);
        }
      }
    }
  }

  lemma CountWithLast(rows: seq<Judged>, last: Judged, r: Judged)
    ensures multiset(rows + [last])[r] == multiset(rows)[r] + if r == last then 1 else 0
  {
  }

  lemma OneMoreCandidate(judges: seq<Judged>)
    requires judges != []
    ensures var n := |judges| - 1;
            |CandidatesAt(judges)| == |CandidatesAt(judges[..n])| + if Candidate(judges[n]) then 1 else 0
  {
    hide Candidate;
    var n := |judges| - 1;
    assert CandidatesAt(judges)
        == if Candidate(judges[n]) then CandidatesAt(judges[..n]) + {n} else CandidatesAt(judges[..n]);
  }

  lemma EligibleOneMore(init: seq<Judged>, last: Judged)
    ensures Eligible(Graded(init + [last]))
         == if Candidate(last) then Eligible(Graded(init)) + [last] else Eligible(Graded(init))
  {
    var graded := Graded(init);
    assert (init + [last])[..|init|] == init;
    if RealDecision(last) {
      assert Graded(init + [last]) == graded + [last];
      assert (graded + [last])[..|graded|] == graded;
    } else {
      assert Graded(init + [last]) == graded;
    }
  }

  /** One shuffled deck per cell, in cell order. */
  datatype Deck = Deck(cell: string, rows: seq<Judged>)

  ghost predicate ValidDecks(decks: seq<Deck>) {
    && (forall i, j :: 0 <= i < j < |decks| ==> decks[i].cell != decks[j].cell)
    && forall i, r :: 0 <= i < |decks| && r in decks[i].rows ==> r.cell == Some(decks[i].cell)
  }

  /** The rows dealt by `rounds` whole rounds and the first `cells` cells of the next. */
  function Dealt(decks: seq<Deck>, rounds: nat, cells: nat): seq<Judged>
    requires cells <= |decks|
    decreases rounds, cells
  {
    if cells > 0 then
      Dealt(decks, rounds, cells - 1) + if rounds < |decks[cells - 1].rows| then [decks[cells - 1].rows[rounds]] else []
    else if rounds > 0 then Dealt(decks, rounds - 1, |decks|)
    else []
  }

  function Least(a: int, b: int): int { if a <= b then a else b }

  /** How many rows of a deck have been dealt. */
  function Share(decks: seq<Deck>, rounds: nat, cells: nat, j: nat): nat
    requires j < |decks|
  {
    Least(|decks[j].rows|, rounds + if j < cells then 1 else 0)
  }

  lemma OneMoreOfCell(rows: seq<Judged>, r: Judged, cell: Option<string>)
    ensures OfCell(rows + [r], cell) == OfCell(rows, cell) + if r.cell == cell then [r] else []
  {
    assert (rows + [r])[..|rows|] == rows;
  }

  /** What was dealt of a cell is a prefix of its deck, and the deal is one card ahead for the first cells only. */
  lemma {:induction false} DealtFromDeck(decks: seq<Deck>, rounds: nat, cells: nat, j: nat)
    requires ValidDecks(decks) && cells <= |decks| && j < |decks|
    ensures OfCell(Dealt(decks, rounds, cells), Some(decks[j].cell)) == decks[j].rows[..Share(decks, rounds, cells, j)]
    decreases rounds, cells
  {
    hide OfCell;
    if cells > 0 {
      DealtFromDeck(decks, rounds, cells - 1, j);
      var deck := decks[cells - 1];
      if rounds < |deck.rows| {
        var r := deck.rows[rounds];
        assert r in deck.rows;
        OneMoreOfCell(Dealt(decks, rounds, cells - 1), r, Some(decks[j].cell));
        if j == cells - 1 {
          assert deck.rows[..rounds] + [r] == deck.rows[..rounds + 1];
        }
      } else {
        assert Dealt(decks, rounds, cells) == Dealt(decks, rounds, cells - 1);
      }
    } else if rounds > 0 {
      DealtFromDeck(decks, rounds - 1, |decks|, j);
    } else {
      NothingOfCell(Some(decks[j].cell));
    }
  }

  lemma NothingOfCell(cell: Option<string>)
    ensures OfCell([], cell) == []
  {
  }

  /** Only rows of the decks are dealt. */
  lemma {:induction false} DealtComesFromDecks(decks: seq<Deck>, rounds: nat, cells: nat)
    requires cells <= |decks|
    ensures forall r :: r in Dealt(decks, rounds, cells) ==> exists j :: 0 <= j < |decks| && r in decks[j].rows
    decreases rounds, cells
  {
    if cells > 0 {
      DealtComesFromDecks(decks, rounds, cells - 1);
    } else if rounds > 0 {
      DealtComesFromDecks(decks, rounds - 1, |decks|);
    }
  }

  lemma {:induction false} CountedInItsCell(rows: seq<Judged>, r: Judged)
    ensures multiset(rows)[r] == multiset(OfCell(rows, r.cell))[r]
  {
    if rows != [] {
      var init, last := rows[..|rows| - 1], rows[|rows| - 1];
      assert rows == init + [last];
      CountedInItsCell(init, r);
    }
  }

  lemma {:induction false} EligibleOfCell(graded: seq<Judged>, cell: string)
    ensures OfCell(Eligible(graded), Some(cell)) == OfCell(graded, Some(cell))
  {
    if graded != [] {
      var init, last := graded[..|graded| - 1], graded[|graded| - 1];
      EligibleOfCell(init, cell);
      if last.cell.Some? {
        OneMoreOfCell(Eligible(init), last, Some(cell));
      } else {
        assert Eligible(graded) == Eligible(init);
      }
    }
  }

  lemma {:induction false} OfCellIsOfCell(rows: seq<Judged>, cell: Option<string>)
    ensures forall r :: r in OfCell(rows, cell) ==> r in rows && r.cell == cell
  {
    if rows != [] { OfCellIsOfCell(rows[..|rows| - 1], cell); }
  }

  lemma {:induction false} EligibleAreNamed(graded: seq<Judged>)
    ensures forall r :: r in Eligible(graded) ==> r in graded && r.cell.Some?
  {
    if graded != [] { EligibleAreNamed(graded[..|graded| - 1]); }
  }

  // ---- Grouping and shuffling ----

  function DeckCell(deck: Deck): string { deck.cell }

  /** The decks are the shuffled groups of the named cells, every such cell once, in text order. */
  ghost predicate DecksFor(decks: seq<Deck>, graded: seq<Judged>, shuffle: Shuffle) {
    && ValidDecks(decks)
    && SortedBy(decks, DeckCell)
    && (forall j :: 0 <= j < |decks| ==>
          decks[j].rows == shuffle(Some(decks[j].cell), OfCell(graded, Some(decks[j].cell))))
    && forall r :: r in graded && r.cell.Some? ==> exists j :: 0 <= j < |decks| && decks[j].cell == r.cell.value
  }

  predicate NoRepeats(cells: seq<string>) {
    forall i, j :: 0 <= i < j < |cells| ==> cells[i] != cells[j]
  }

  function GroupOf(byCell: map<Option<string>, seq<Judged>>, cell: Option<string>): seq<Judged> {
    if cell in byCell then byCell[cell] else []
  }

  /** The rows seen so far, grouped by cell, and the named cells in order of first appearance. */
  ghost predicate Grouped(byCell: map<Option<string>, seq<Judged>>, cells: seq<string>, graded: seq<Judged>) {
    && (forall cell :: OfCell(graded, cell) == GroupOf(byCell, cell))
    && (forall r :: r in graded ==> r.cell in byCell)
    && NoRepeats(cells)
    && forall cell :: cell in cells <==> Some(cell) in byCell
  }

  lemma NothingGrouped()
    ensures Grouped(map[], [], [])
  {
    forall cell ensures OfCell([], cell) == [] { NothingOfCell(cell); }
  }

  lemma GroupOneMore(byCell: map<Option<string>, seq<Judged>>, cells: seq<string>, graded: seq<Judged>, r: Judged)
    requires Grouped(byCell, cells, graded)
    ensures Grouped(byCell[r.cell := GroupOf(byCell, r.cell) + [r]],
                    if r.cell.Some? && r.cell !in byCell then cells + [r.cell.value] else cells,
                    graded + [r])
  {
    hide OfCell;
    forall cell { OneMoreOfCell(graded, r, cell); }
  }

  method Group(graded: seq<Judged>) returns (byCell: map<Option<string>, seq<Judged>>, cells: seq<string>)
    ensures Grouped(byCell, cells, graded)
  {
    hide *;
    byCell, cells := map[], [];
    NothingGrouped();
    assert graded[..0] == [];
    for i := 0 to |graded|
      invariant Grouped(byCell, cells, graded[..i])
    {
      var r := graded[i];
      GroupOneMore(byCell, cells, graded[..i], r);
      assert graded[..i + 1] == graded[..i] + [r];
      if r.cell.Some? && r.cell !in byCell {
        cells := cells + [r.cell.value];
      }
      byCell := byCell[r.cell := GroupOf(byCell, r.cell) + [r]];
    }
    assert graded[..|graded|] == graded;
  }

  lemma SortingKeepsDistinct(cells: seq<string>)
    requires NoRepeats(cells)
    ensures NoRepeats(StableSort(cells, Itself)) && SortedBy(StableSort(cells, Itself), Itself)
    ensures forall cell :: cell in StableSort(cells, Itself) <==> cell in cells
  {
    StableSortIsStable(cells, Itself);
    var sorted := StableSort(cells, Itself);
    hide StableSort;
    forall cell ensures cell in sorted <==> cell in cells {
      assert cell in sorted <==> cell in multiset(sorted);
      assert cell in cells <==> cell in multiset(cells);
    }
    forall cell ensures multiset(sorted)[cell] <= 1 { CountedOnce(cells, cell); }
    forall i, j | 0 <= i < j < |sorted| ensures sorted[i] != sorted[j] { CountedTwice(sorted, i, j); }
  }

  lemma {:induction false} CountedOnce(cells: seq<string>, cell: string)
    requires NoRepeats(cells)
    ensures multiset(cells)[cell] <= 1
  {
    if cells != [] {
      assert cells == [cells[0]] + cells[1..];
      CountedOnce(cells[1..], cell);
      assert cell == cells[0] ==> cell !in cells[1..];
    }
  }

  lemma CountedTwice(cells: seq<string>, i: nat, j: nat)
    requires i < j < |cells|
    ensures cells[i] == cells[j] ==> multiset(cells)[cells[i]] >= 2
  {
    assert cells == cells[..j] + [cells[j]] + cells[j + 1..];
    assert cells[i] in cells[..j];
  }

  ghost predicate DeckPerCell(decks: seq<Deck>, order: seq<string>, graded: seq<Judged>, shuffle: Shuffle) {
    && |decks| == |order|
    && forall j :: 0 <= j < |decks| ==>
         decks[j] == Deck(order[j], shuffle(Some(order[j]), OfCell(graded, Some(order[j]))))
  }

  lemma ShuffledRowsKeepTheirCell(graded: seq<Judged>, cell: string, shuffle: Shuffle, r: Judged)
    requires Shuffles(shuffle) && r in shuffle(Some(cell), OfCell(graded, Some(cell)))
    ensures r.cell == Some(cell)
  {
    var rows := OfCell(graded, Some(cell));
    OfCellIsOfCell(graded, Some(cell));
    assert r in multiset(shuffle(Some(cell), rows)) && r in multiset(rows);
  }

  lemma DecksAreComplete(byCell: map<Option<string>, seq<Judged>>, cells: seq<string>, graded: seq<Judged>,
                         shuffle: Shuffle,
                         decks: seq<Deck>)
    requires Shuffles(shuffle) && Grouped(byCell, cells, graded)
    requires DeckPerCell(decks, StableSort(cells, Itself), graded, shuffle)
    ensures DecksFor(decks, graded, shuffle)
  {
    SortingKeepsDistinct(cells);
    var order := StableSort(cells, Itself);
    hide StableSort;
    hide OfCell;
    hide TextAtMost;
    forall j, r | 0 <= j < |decks| && r in decks[j].rows ensures r.cell == Some(decks[j].cell) {
      hide Shuffles;
      ShuffledRowsKeepTheirCell(graded, order[j], shuffle, r);
    }
    forall r | r in graded && r.cell.Some? ensures exists j :: 0 <= j < |decks| && decks[j].cell == r.cell.value {
      var j :| 0 <= j < |order| && order[j] == r.cell.value;
      assert decks[j].cell == r.cell.value;
    }
  }

  method ShuffledDecks(graded: seq<Judged>, shuffle: Shuffle) returns (decks: seq<Deck>)
    requires Shuffles(shuffle)
    ensures DecksFor(decks, graded, shuffle)
  {
    hide Shuffles;
    hide OfCell;
    hide StableSort;
    var byCell, cells := Group(graded);
    var order := StableSort(cells, Itself);
    decks := [];
    for i := 0 to |order|
      invariant DeckPerCell(decks, order[..i], graded, shuffle)
    {
      var cell := Some(order[i]);
      assert OfCell(graded, cell) == GroupOf(byCell, cell);
      decks := decks + [Deck(order[i], shuffle(cell, GroupOf(byCell, cell)))];
    }
    assert order[..|order|] == order;
    DecksAreComplete(byCell, cells, graded, shuffle, decks);
  }

  // ---- Dealing ----

  /** Whether some deck still has a row for this round. */
  predicate RowsLeft(decks: seq<Deck>, round: nat) {
    exists j :: 0 <= j < |decks| && round < |decks[j].rows|
  }

  ghost function Longest(decks: seq<Deck>): (n: nat)
    ensures forall j :: 0 <= j < |decks| ==> |decks[j].rows| <= n
  {
    if decks == [] then 0
    else
      var rest := Longest(decks[1..]);
      assert forall j :: 0 < j < |decks| ==> decks[j] == decks[1..][j - 1];
      if rest < |decks[0].rows| then |decks[0].rows| else rest
  }

  /** A slice from the start, whose negative bounds count from the end. */
  function UpTo<T>(s: seq<T>, limit: int): seq<T> {
    if limit < 0 then (if |s| + limit < 0 then [] else s[..|s| + limit]) else if limit < |s| then s[..limit] else s
  }

  method Deal(decks: seq<Deck>, limit: int) returns (out: seq<Judged>, ghost rounds: nat, ghost cells: nat)
    ensures cells <= |decks| && out == Dealt(decks, rounds, cells)
    ensures |out| <= if limit < 0 then 0 else limit
    ensures |out| < limit ==> cells == 0 && !RowsLeft(decks, rounds)
  {
    out := [];
    var i := 0;
    rounds, cells := 0, 0;
    while |out| < limit && RowsLeft(decks, i)
      invariant cells <= |decks| && out == Dealt(decks, rounds, cells)
      invariant |out| <= if limit < 0 then 0 else limit
      invariant |out| < limit ==> cells == 0 && rounds == i
      decreases Longest(decks) - i
    {
      for c := 0 to |decks|
        invariant rounds == i && cells == c && out == Dealt(decks, i, c)
        invariant |out| <= limit
      {
        if |out| >= limit {
          break;
        }
        if i < |decks[c].rows| {
          out := out + [decks[c].rows[i]];
        }
        cells := cells + 1;
      }
      i := i + 1;
      if cells == |decks| {
        rounds, cells := i, 0;
      }
    }
    out := UpTo(out, limit);
  }

  // ---- What the sample promises ----

  lemma SameSize(a: seq<Judged>, b: seq<Judged>)
    requires multiset(a) == multiset(b)
    ensures |a| == |b|
  {
    assert |multiset(a)| == |a| && |multiset(b)| == |b|;
  }

  lemma {:induction false} NoneOfCell(rows: seq<Judged>, cell: Option<string>)
    requires forall r :: r in rows ==> r.cell != cell
    ensures OfCell(rows, cell) == []
  {
    if rows != [] { NoneOfCell(rows[..|rows| - 1], cell); }
  }

  /** A cell contributes the head of its shuffled rows: one per round while they last. */
  lemma SampleOfCell(decks: seq<Deck>, graded: seq<Judged>, shuffle: Shuffle, rounds: nat, cells: nat, cell: string)
    returns (ahead: nat)
    requires Shuffles(shuffle) && DecksFor(decks, graded, shuffle) && cells <= |decks|
    ensures ahead <= if cells == 0 then 0 else 1
    ensures var taken := OfCell(Dealt(decks, rounds, cells), Some(cell));
            && taken <= shuffle(Some(cell), OfCell(graded, Some(cell)))
            && |taken| == Least(|OfCell(graded, Some(cell))|, rounds + ahead)
  {
    hide OfCell;
    hide Dealt;
    hide SortedBy;
    var out := Dealt(decks, rounds, cells);
    var rows := OfCell(graded, Some(cell));
    SameSize(shuffle(Some(cell), rows), rows);
    if j :| 0 <= j < |decks| && decks[j].cell == cell {
      DealtFromDeck(decks, rounds, cells, j);
      ahead := if j < cells then 1 else 0;
    } else {
      ahead := 0;
      DealtComesFromDecks(decks, rounds, cells);
      NoneOfCell(out, Some(cell));
      NoneOfCell(graded, Some(cell));
    }
  }

  /** Any two cells are served alike, unless the lesser one has nothing left to give. */
  lemma DealIsFair(decks: seq<Deck>, graded: seq<Judged>, shuffle: Shuffle, rounds: nat, cells: nat, c: string,
                   d: string)
    requires Shuffles(shuffle) && DecksFor(decks, graded, shuffle) && cells <= |decks|
    ensures var out := Dealt(decks, rounds, cells);
            || |OfCell(out, Some(c))| <= |OfCell(out, Some(d))| + 1
            || |OfCell(out, Some(d))| == |OfCell(graded, Some(d))|
  {
    hide OfCell;
    hide Dealt;
    hide DecksFor;
    hide Shuffles;
    var forC := SampleOfCell(decks, graded, shuffle, rounds, cells, c);
    var forD := SampleOfCell(decks, graded, shuffle, rounds, cells, d);
  }

  lemma PrefixCounts(prefix: seq<Judged>, all: seq<Judged>, r: Judged)
    requires prefix <= all
    ensures multiset(prefix)[r] <= multiset(all)[r]
  {
    assert all == prefix + all[|prefix|..];
  }

  lemma DealtRowsAreNamed(decks: seq<Deck>, rounds: nat, cells: nat)
    requires ValidDecks(decks) && cells <= |decks|
    ensures forall r :: r in Dealt(decks, rounds, cells) ==> r.cell.Some?
  {
    hide Dealt;
    DealtComesFromDecks(decks, rounds, cells);
  }

  lemma DealtCount(decks: seq<Deck>, graded: seq<Judged>, shuffle: Shuffle, rounds: nat, cells: nat, r: Judged)
    requires Shuffles(shuffle) && DecksFor(decks, graded, shuffle) && cells <= |decks| && r.cell.Some?
    ensures multiset(Dealt(decks, rounds, cells))[r] <= multiset(Eligible(graded))[r]
    ensures cells == 0 && !RowsLeft(decks, rounds) ==>
              multiset(Dealt(decks, rounds, cells))[r] == multiset(Eligible(graded))[r]
  {
    hide OfCell;
    hide Eligible;
    hide Dealt;
    hide SortedBy;
    var out, rows := Dealt(decks, rounds, cells), OfCell(graded, r.cell);
    CountedInItsCell(out, r);
    CountedInItsCell(Eligible(graded), r);
    EligibleOfCell(graded, r.cell.value);
    var ahead := SampleOfCell(decks, graded, shuffle, rounds, cells, r.cell.value);
    PrefixCounts(OfCell(out, r.cell), shuffle(r.cell, rows), r);
    if cells == 0 && !RowsLeft(decks, rounds) {
      SameSize(shuffle(r.cell, rows), rows);
      assert |rows| <= rounds by { CellFits(decks, graded, shuffle, rounds, r.cell.value); }
      assert OfCell(out, r.cell) == shuffle(r.cell, rows);
    }
  }

  lemma CellFits(decks: seq<Deck>, graded: seq<Judged>, shuffle: Shuffle, rounds: nat, cell: string)
    requires Shuffles(shuffle) && DecksFor(decks, graded, shuffle) && !RowsLeft(decks, rounds)
    ensures |OfCell(graded, Some(cell))| <= rounds
  {
    hide SortedBy;
    var rows := OfCell(graded, Some(cell));
    OfCellIsOfCell(graded, Some(cell));
    if rows != [] {
      assert rows[0] in rows;
      var j :| 0 <= j < |decks| && decks[j].cell == cell;
      SameSize(decks[j].rows, rows);
    }
  }

  /** Nothing is dealt twice or from outside; what stops short of the limit has dealt everything. */
  lemma DealIsComplete(decks: seq<Deck>, graded: seq<Judged>, shuffle: Shuffle, rounds: nat, cells: nat)
    requires Shuffles(shuffle) && DecksFor(decks, graded, shuffle) && cells <= |decks|
    ensures multiset(Dealt(decks, rounds, cells)) <= multiset(Eligible(graded))
    ensures |Dealt(decks, rounds, cells)| <= |Eligible(graded)|
    ensures cells == 0 && !RowsLeft(decks, rounds) ==> |Dealt(decks, rounds, cells)| == |Eligible(graded)|
  {
    var out := Dealt(decks, rounds, cells);
    DealtRowsAreNamed(decks, rounds, cells);
    EligibleAreNamed(graded);
    hide Dealt;
    hide Eligible;
    hide DecksFor;
    hide Shuffles;
    forall r: Judged
      ensures multiset(out)[r] <= multiset(Eligible(graded))[r]
      ensures cells == 0 && !RowsLeft(decks, rounds) ==> multiset(out)[r] == multiset(Eligible(graded))[r]
    {
      if r.cell.Some? {
        DealtCount(decks, graded, shuffle, rounds, cells, r);
      } else {
        assert r !in out && r !in Eligible(graded);
      }
    }
    SmallerIsShorter(out, Eligible(graded));
    if cells == 0 && !RowsLeft(decks, rounds) {
      assert multiset(out) == multiset(Eligible(graded));
      SameSize(out, Eligible(graded));
    }
  }

  lemma SmallerIsShorter(a: seq<Judged>, b: seq<Judged>)
    requires multiset(a) <= multiset(b)
    ensures |a| <= |b|
  {
    var rest := multiset(b) - multiset(a);
    assert multiset(b) == multiset(a) + rest;
    assert |multiset(a)| == |a| && |multiset(b)| == |b|;
  }

  method SampleSpotcheck(judges: seq<Judged>, limit: int, shuffle: Shuffle) returns (out: seq<Judged>)
    requires Shuffles(shuffle)
    ensures multiset(out) <= multiset(Eligible(Graded(judges)))
    ensures |out| == Least(if limit < 0 then 0 else limit, |Eligible(Graded(judges))|)
    ensures forall c :: OfCell(out, Some(c)) <= shuffle(Some(c), OfCell(Graded(judges), Some(c)))
    ensures forall c, d ::
              || |OfCell(out, Some(c))| <= |OfCell(out, Some(d))| + 1
              || |OfCell(out, Some(d))| == |OfCell(Graded(judges), Some(d))|
  {
    hide OfCell;
    hide Graded;
    hide Eligible;
    hide Dealt;
    hide DecksFor;
    hide Shuffles;
    var graded := Graded(judges);
    var decks := ShuffledDecks(graded, shuffle);
    ghost var rounds, cells;
    out, rounds, cells := Deal(decks, limit);
    DealIsComplete(decks, graded, shuffle, rounds, cells);
    forall c ensures OfCell(out, Some(c)) <= shuffle(Some(c), OfCell(graded, Some(c))) {
      var ahead := SampleOfCell(decks, graded, shuffle, rounds, cells, c);
    }
    forall c, d
      ensures || |OfCell(out, Some(c))| <= |OfCell(out, Some(d))| + 1
              || |OfCell(out, Some(d))| == |OfCell(graded, Some(d))|
    {
      DealIsFair(decks, graded, shuffle, rounds, cells, c, d);
    }
  }
}
