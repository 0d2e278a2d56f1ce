/** The counting loops of the matcher: descriptors per database image, and the vote for the best match. */
module Matching {

  function Count(s: seq<int>, x: int): nat {
    if s == [] then 0 else Count(s[..|s| - 1], x) + if s[|s| - 1] == x then 1 else 0
  }

  lemma CountAppend(s: seq<int>, y: int, x: int)
    ensures Count(s + [y], x) == Count(s, x) + if x == y then 1 else 0
  {
    assert (s + [y])[..|s|] == s;
  }

  lemma {:induction false} CountPositive(s: seq<int>, x: int)
    ensures Count(s, x) > 0 <==> x in s
    decreases |s|
  {
    if s != [] {
      var init := s[..|s| - 1];
      CountPositive(init, x);
      assert s == init + [s[|s| - 1]];
    }
  }

  lemma {:induction false} CountIsMultiplicity(s: seq<int>, x: int)
    ensures Count(s, x) == multiset(s)[x]
    decreases |s|
  {
    if s != [] {
      CountIsMultiplicity(s[..|s| - 1], x);
      assert s == s[..|s| - 1] + [s[|s| - 1]];
    }
  }

  function Total(s: seq<int>): int {
    if s == [] then 0 else Total(s[..|s| - 1]) + s[|s| - 1]
  }

  lemma TotalAppend(s: seq<int>, x: int)
    ensures Total(s + [x]) == Total(s) + x
  {
    assert (s + [x])[..|s|] == s;
  }

  lemma {:induction false} TotalUpdate(s: seq<int>, i: nat, x: int)
    requires i < |s|
    ensures Total(s[i := x]) == Total(s) - s[i] + x
    decreases |s|
  {
    var n := |s| - 1;
    if i == n {
      assert s[i := x][..n] == s[..n];
    } else {
      assert s[i := x][..n] == s[..n][i := x];
      TotalUpdate(s[..n], i, x);
    }
  }

  // ---- init_DB: descriptors per image ----

  /** The last image number of a rewritten table; 0 for an empty one. */
  function Last(s: seq<int>): int { if s == [] then 0 else s[|s| - 1] }

  /** The table as the loop rewrites it: an entry that is not the current image becomes the next image. */
  function Rewritten(table: seq<int>): (r: seq<int>)
    ensures |r| == |table|
  {
    if table == [] then []
    else
      var before := Rewritten(table[..|table| - 1]);
      before + [if table[|table| - 1] == Last(before) then Last(before) else Last(before) + 1]
  }

  /** Entry by entry: an entry equal to the one written before it stays, any other becomes the number after that. */
  lemma {:induction false} RewrittenAt(table: seq<int>, k: nat)
    requires k < |table|
    ensures var r := Rewritten(table);
            var before := if k == 0 then 0 else r[k - 1];
            r[k] == if table[k] == before then before else before + 1
    decreases |table|
  {
    var n := |table| - 1;
    var r := Rewritten(table[..n]);
    assert forall j :: 0 <= j < n ==> Rewritten(table)[j] == r[j];
    if k < n { RewrittenAt(table[..n], k); }
  }

  /** Counts[i - 1] is how often image i occurs, up to the last image. */
  function Counts(s: seq<int>): seq<int>
    requires Last(s) >= 0
  {
    seq(Last(s), i => Count(s, i + 1))
  }

  lemma CountsStep(s: seq<int>, y: int)
    requires Last(s) >= 0 && forall i :: i > Last(s) ==> Count(s, i) == 0
    requires y == Last(s) + 1 || y == Last(s) > 0
    ensures Last(s + [y]) == y && forall i :: i > y ==> Count(s + [y], i) == 0
    ensures y == Last(s) + 1 ==> Counts(s + [y]) == Counts(s) + [1]
    ensures y == Last(s) ==> Counts(s + [y]) == Counts(s)[y - 1 := Counts(s)[y - 1] + 1]
  {
    forall i ensures Count(s + [y], i) == Count(s, i) + if i == y then 1 else 0 { CountAppend(s, y, i); }
  }

  /** Of the table the loop needs only that at() finds an entry: no zero before the first image. */
  predicate Startable(table: seq<int>) { table != [] ==> table[0] != 0 }

  lemma {:induction false} RewrittenCounts(table: seq<int>)
    requires Startable(table)
    ensures var r := Rewritten(table);
            && Last(r) >= 0 && (table != [] ==> Last(r) > 0)
            && (forall i :: i > Last(r) ==> Count(r, i) == 0)
            && Total(Counts(r)) == |table|
    decreases |table|
  {
    if table != [] {
      var n := |table| - 1;
      var before := Rewritten(table[..n]);
      RewrittenCounts(table[..n]);
      var y := if table[n] == Last(before) then Last(before) else Last(before) + 1;
      assert Rewritten(table) == before + [y];
      CountsStep(before, y);
      if y == Last(before) { TotalUpdate(Counts(before), y - 1, Counts(before)[y - 1] + 1); }
      else { TotalAppend(Counts(before), 1); }
    }
  }

  /** One turn of the loop. */
  lemma TurnOfTheLoop(table: seq<int>, k: nat, y: int)
    requires Startable(table) && k < |table|
    requires var last := Last(Rewritten(table[..k])); y == if table[k] == last then last else last + 1
    ensures var r := Rewritten(table[..k]);
            && Rewritten(table[..k + 1]) == r + [y] && Last(r) >= 0 && Last(r + [y]) == y
            && (y == Last(r) + 1 ==> Counts(r + [y]) == Counts(r) + [1])
            && (y == Last(r) ==> 1 <= y <= |Counts(r)| && Counts(r + [y]) == Counts(r)[y - 1 := Counts(r)[y - 1] + 1])
  {
    assert table[..k + 1][..k] == table[..k];
    RewrittenCounts(table[..k]);
    if k == 0 { assert table[..0] == []; } else { assert table[..k][0] == table[0]; }
    CountsStep(Rewritten(table[..k]), y);
  }

  /** The table when the loop has reached entry k. */
  ghost predicate Reached(t: seq<int>, was: seq<int>, k: nat) {
    && Startable(was) && |t| == |was| && k <= |was|
    && t[..k] == Rewritten(was[..k]) && t[k..] == was[k..]
  }

  ghost predicate Counted(t: seq<int>, k: nat, dscCnt: seq<int>, lastIndex: int) {
    k <= |t| && lastIndex == Last(t[..k]) >= 0 && dscCnt == Counts(t[..k])
  }

  lemma Turn(t: seq<int>, was: seq<int>, k: nat, dscCnt: seq<int>, lastIndex: int)
    requires Reached(t, was, k) && k < |t| && Counted(t, k, dscCnt, lastIndex)
    ensures lastIndex >= 0
    ensures t[k] != lastIndex ==>
      Reached(t[k := lastIndex + 1], was, k + 1) && Counted(t[k := lastIndex + 1], k + 1, dscCnt + [1], lastIndex + 1)
    ensures t[k] == lastIndex ==>
      && Reached(t, was, k + 1) && 1 <= lastIndex <= |dscCnt|
      && Counted(t, k + 1, dscCnt[lastIndex - 1 := dscCnt[lastIndex - 1] + 1], lastIndex)
  {
    var y := if t[k] == lastIndex then lastIndex else lastIndex + 1;
    assert t[k] == t[k..][0] == was[k];
    TurnOfTheLoop(was, k, y);
    hide Counts, Rewritten, Last, Startable;
    var next := t[k := y];
    assert next[..k + 1] == t[..k] + [y] && next[k + 1..] == t[k..][1..] == was[k..][1..] == was[k + 1..];
    if t[k] == lastIndex { assert next == t; }
  }

  lemma CountsAt(s: seq<int>)
    requires Last(s) >= 0
    ensures |Counts(s)| == Last(s) && forall i :: 1 <= i <= Last(s) ==> Counts(s)[i - 1] == Count(s, i)
  {
    hide Count;
  }

  lemma Finished(t: seq<int>, was: seq<int>, dscCnt: seq<int>, lastIndex: int)
    requires Reached(t, was, |was|) && Counted(t, |was|, dscCnt, lastIndex)
    ensures Startable(was) && t == Rewritten(was) && lastIndex == Last(t) == |dscCnt| && Total(dscCnt) == |t|
    ensures forall i :: 1 <= i <= lastIndex ==> dscCnt[i - 1] == multiset(t)[i]
    ensures dscCnt == StoredCounts(was)
  {
    hide Rewritten, Count, Counts, Total, Startable;
    assert t[..|t|] == t && was[..|was|] == was;
    RewrittenCounts(was);
    CountsAt(t);
    forall i | 1 <= i <= lastIndex ensures dscCnt[i - 1] == multiset(t)[i] { CountIsMultiplicity(t, i); }
  }

  /** The loop of init_DB. The test `t = lastIndex + 1` is an assignment, never zero: its else branch is dead. */
  method CountDescriptors(table: array<int>) returns (dscCnt: seq<int>, lastIndex: int)
    requires Startable(table[..])
    modifies table
    ensures table[..] == Rewritten(old(table[..]))
    ensures lastIndex == |dscCnt| == (if table.Length == 0 then 0 else table[table.Length - 1])
    ensures forall i :: 1 <= i <= lastIndex ==> dscCnt[i - 1] == multiset(table[..])[i]
    ensures Total(dscCnt) == table.Length && dscCnt == StoredCounts(old(table[..]))
  {
    dscCnt, lastIndex := [], 0;
    ghost var was := table[..];
    assert Reached(table[..], was, 0) && Counted(table[..], 0, dscCnt, lastIndex);
    hide Reached, Counted;
    var imgCount := 0;
    for k := 0 to table.Length
      invariant Reached(table[..], was, k) && Counted(table[..], k, dscCnt, lastIndex) && imgCount == lastIndex
    {
      Turn(table[..], was, k, dscCnt, lastIndex);
      if table[k] != lastIndex {
        table[k] := lastIndex + 1;
        if table[k] != 0 {
          dscCnt := dscCnt + [1];
          lastIndex := lastIndex + 1;
          imgCount := imgCount + 1;
        } else {
          dscCnt := dscCnt + [0, 1];
          lastIndex := lastIndex + 2;
          imgCount := imgCount + 2;
        }
      } else {
        dscCnt := dscCnt[lastIndex - 1 := dscCnt[lastIndex - 1] + 1];
      }
    }
    Finished(table[..], was, dscCnt, lastIndex);
  }

  ghost predicate Nondecreasing(s: seq<int>) { forall i, j :: 0 <= i <= j < |s| ==> s[i] <= s[j] }

  /** No image number between 1 and the largest is missing. */
  ghost predicate NoneSkipped(table: seq<int>) { forall x :: 1 <= x <= Last(table) ==> x in table }

  /** For a nondecreasing table of positive numbers, as init_DB builds it: the loop leaves the table alone, and
      so counts the descriptors of each image truly, exactly when no image number is skipped. */
  lemma {:induction false} UnchangedIffNoneSkipped(table: seq<int>)
    requires Nondecreasing(table) && AllPositive(table)
    ensures Rewritten(table) == table <==> NoneSkipped(table)
    decreases |table|
  {
    hide Rewritten, NoneSkipped;
    if table == [] {
      NothingToSkip();
    } else {
      var init, t := table[..|table| - 1], table[|table| - 1];
      assert table == init + [t];
      UnchangedIffNoneSkipped(init);
      if init != [] { assert Last(init) == table[|init| - 1] <= t; }
      SkipStep(init, t);
      UnchangedStep(init, t);
    }
  }

  lemma NothingToSkip()
    ensures Rewritten([]) == [] && NoneSkipped([])
  {}

  ghost predicate AllPositive(s: seq<int>) { forall i :: 0 <= i < |s| ==> s[i] > 0 }

  lemma UnchangedStep(init: seq<int>, t: int)
    requires Last(init) <= t && 0 < t
    ensures Rewritten(init + [t]) == init + [t] <==> Rewritten(init) == init && t <= Last(init) + 1
  {
    var r := Rewritten(init);
    assert (init + [t])[..|init|] == init;
    var y := if t == Last(r) then Last(r) else Last(r) + 1;
    assert Rewritten(init + [t]) == r + [y];
    SameEnds(r, init, y, t);
  }

  lemma SameEnds(a: seq<int>, b: seq<int>, x: int, y: int)
    requires |a| == |b|
    ensures a + [x] == b + [y] <==> a == b && x == y
  {
    if a + [x] == b + [y] { assert a == (a + [x])[..|a|] == (b + [y])[..|b|] == b && (a + [x])[|a|] == (b + [y])[|b|]; }
  }

  lemma SkipStep(init: seq<int>, t: int)
    requires (forall i :: 0 <= i < |init| ==> 0 < init[i] <= Last(init)) && Last(init) <= t && 0 < t
    ensures NoneSkipped(init + [t]) <==> NoneSkipped(init) && t <= Last(init) + 1
  {
    var table, last := init + [t], Last(init);
    assert Last(table) == t;
    assert forall x :: x in table <==> x in init || x == t;
    if NoneSkipped(table) {
      forall x | 1 <= x <= last ensures x in init { assert x in table; }
      assert last + 1 <= t ==> last + 1 in table;
    }
  }

  /** A table that goes from 17 straight to 19, as the shipped one does, is rewritten: the first descriptor of
      image 19 is booked on image 18. */
  lemma SkippedNumberIsRebooked(init: seq<int>, t: int)
    requires Rewritten(init) == init && init != [] && t == Last(init) + 2
    ensures Rewritten(init + [t, t]) == init + [t - 1, t]
  {
    var first := init + [t];
    assert first[..|init|] == init;
    assert (init + [t, t])[..|init| + 1] == first;
  }

  // ---- matchImg: the vote ----

  /** A row of the nearest-neighbour search: the nearest descriptor and the two smallest distances. */
  datatype Row = Row(nearest: int, dist0: real, dist1: real)

  predicate Passes(row: Row) { row.dist0 < row.dist1 * 0.8 }

  /** What index_IMG.at() needs: every descriptor that votes is in the table. */
  predicate InTable(rows: seq<Row>, table: seq<int>) {
    forall i :: 0 <= i < |rows| && Passes(rows[i]) ==> 0 <= rows[i].nearest < |table|
  }

  /** What dscCnt_IMG.at() needs, which is asked for the winner alone, and not for image 0. */
  ghost predicate HasCount(votes: seq<int>, dscCnt: seq<int>) {
    forall w :: IsWinner(votes, w) ==> w == 0 || 1 <= w <= |dscCnt|
  }

  /** The images voted for, one per row that passes the ratio test. */
  function Votes(rows: seq<Row>, table: seq<int>): seq<int>
    requires InTable(rows, table)
  {
    if rows == [] then []
    else
      var n := |rows| - 1;
      Votes(rows[..n], table) + if Passes(rows[n]) then [table[rows[n].nearest]] else []
  }

  lemma RatioTest(row: Row)
    ensures Passes(row) <==> 10.0 * row.dist0 < 8.0 * row.dist1
  {}

  lemma VotesStep(rows: seq<Row>, row: Row, table: seq<int>)
    requires InTable(rows + [row], table)
    ensures InTable(rows, table) && (Passes(row) ==> 0 <= row.nearest < |table|)
    ensures Votes(rows + [row], table) == Votes(rows, table) + if Passes(row) then [table[row.nearest]] else []
  {
    assert (rows + [row])[|rows|] == row && (rows + [row])[..|rows|] == rows;
    forall i | 0 <= i < |rows| ensures rows[i] == (rows + [row])[i] {}
  }

  /** `at` has the places of exactly the rows that vote, in the order of the rows, and `votes` their images. */
  ghost predicate ComeFrom(votes: seq<int>, at: seq<nat>, rows: seq<Row>, table: seq<int>) {
    && |at| == |votes|
    && (forall k :: 0 <= k < |at| ==>
          at[k] < |rows| && 0 <= rows[at[k]].nearest < |table| && votes[k] == table[rows[at[k]].nearest])
    && (forall j, k :: 0 <= j < k < |at| ==> at[j] < at[k])
    && (forall i: nat :: i < |rows| ==> (Passes(rows[i]) <==> i in at))
  }

  lemma ComeFromStep(votes: seq<int>, at: seq<nat>, rows: seq<Row>, row: Row, table: seq<int>)
    requires ComeFrom(votes, at, rows, table) && (Passes(row) ==> 0 <= row.nearest < |table|)
    ensures if Passes(row) then ComeFrom(votes + [table[row.nearest]], at + [|rows|], rows + [row], table)
            else ComeFrom(votes, at, rows + [row], table)
  {
    hide Passes;
    if Passes(row) { assert forall i: nat :: i in at + [|rows|] <==> i in at || i == |rows|; }
  }

  lemma {:induction false} VotesComeFrom(rows: seq<Row>, table: seq<int>) returns (at: seq<nat>)
    requires InTable(rows, table)
    ensures ComeFrom(Votes(rows, table), at, rows, table)
    decreases |rows|
  {
    hide Passes, ComeFrom;
    at := [];
    if rows == [] {
      NoneComeFrom(table);
    } else {
      var init, row := rows[..|rows| - 1], rows[|rows| - 1];
      assert rows == init + [row];
      VotesStep(init, row, table);
      at := VotesComeFrom(init, table);
      hide Votes;
      ComeFromStep(Votes(init, table), at, init, row, table);
      assert Votes(init, table) + [] == Votes(init, table);
      at := if Passes(row) then at + [|init|] else at;
    }
  }

  lemma NoneComeFrom(table: seq<int>)
    ensures ComeFrom(Votes([], table), [], [], table)
  {}

  /** The votes are those of exactly the rows that pass the ratio test, in the order of the rows. */
  lemma VotesOfRows(rows: seq<Row>, table: seq<int>) returns (at: seq<nat>)
    requires InTable(rows, table)
    ensures |at| == |Votes(rows, table)| && forall j, k :: 0 <= j < k < |at| ==> at[j] < at[k]
    ensures forall k :: 0 <= k < |at| ==>
      && at[k] < |rows| && 0 <= rows[at[k]].nearest < |table|
      && Votes(rows, table)[k] == table[rows[at[k]].nearest]
    ensures forall i: nat :: i < |rows| ==> (10.0 * rows[i].dist0 < 8.0 * rows[i].dist1 <==> i in at)
  {
    at := VotesComeFrom(rows, table);
    hide Votes;
    forall i: nat | i < |rows| ensures Passes(rows[i]) <==> 10.0 * rows[i].dist0 < 8.0 * rows[i].dist1 {
      RatioTest(rows[i]);
    }
  }

  function Voters(rows: seq<Row>, table: seq<int>, x: int): set<int>
    requires InTable(rows, table)
  {
    set i | 0 <= i < |rows| && Passes(rows[i]) && table[rows[i].nearest] == x
  }

  lemma VotersStep(rows: seq<Row>, row: Row, table: seq<int>, x: int)
    requires InTable(rows + [row], table) && InTable(rows, table) && (Passes(row) ==> 0 <= row.nearest < |table|)
    ensures |Voters(rows + [row], table, x)|
         == |Voters(rows, table, x)| + if Passes(row) && table[row.nearest] == x then 1 else 0
  {
    hide Passes;
    var more := rows + [row];
    assert forall i :: 0 <= i < |rows| ==> more[i] == rows[i];
    assert more[|rows|] == row;
    var mine := Passes(row) && table[row.nearest] == x;
    assert Voters(more, table, x) == Voters(rows, table, x) + if mine then {|rows|} else {};
  }

  lemma {:induction false} VotersVote(rows: seq<Row>, table: seq<int>, x: int)
    requires InTable(rows, table)
    ensures Count(Votes(rows, table), x) == |Voters(rows, table, x)|
    decreases |rows|
  {
    if rows == [] {
      assert Voters(rows, table, x) == {};
    } else {
      var init, row := rows[..|rows| - 1], rows[|rows| - 1];
      assert rows == init + [row];
      VotesStep(init, row, table);
      VotersVote(init, table, x);
      VotersStep(init, row, table, x);
      if Passes(row) { CountAppend(Votes(init, table), table[row.nearest], x); }
      assert Votes(init, table) + [] == Votes(init, table);
      hide Votes, Voters, Passes, Count;
    }
  }

  /** An image has one vote for each row that passes the ratio test and is nearest to one of its descriptors. */
  lemma VotesPerImage(rows: seq<Row>, table: seq<int>, x: int)
    requires InTable(rows, table)
    ensures forall i :: 0 <= i < |rows| && 10.0 * rows[i].dist0 < 8.0 * rows[i].dist1 ==>
      0 <= rows[i].nearest < |table|
    ensures multiset(Votes(rows, table))[x]
         == |set i | 0 <= i < |rows| && 10.0 * rows[i].dist0 < 8.0 * rows[i].dist1 && table[rows[i].nearest] == x|
  {
    VotersVote(rows, table, x);
    CountIsMultiplicity(Votes(rows, table), x);
    hide Votes, Count;
    forall i | 0 <= i < |rows| ensures Passes(rows[i]) <==> 10.0 * rows[i].dist0 < 8.0 * rows[i].dist1 {
      RatioTest(rows[i]);
    }
    assert Voters(rows, table, x)
        == set i | 0 <= i < |rows| && 10.0 * rows[i].dist0 < 8.0 * rows[i].dist1 && table[rows[i].nearest] == x;
  }

  lemma {:induction false} VotesAreEntries(rows: seq<Row>, table: seq<int>)
    requires InTable(rows, table)
    ensures forall x :: x in Votes(rows, table) ==> x in table
    decreases |rows|
  {
    if rows != [] { VotesAreEntries(rows[..|rows| - 1], table); }
  }

  /** init_DB stores the table before the counting loop and the counts after it. */
  function StoredCounts(table: seq<int>): seq<int>
    requires Startable(table)
  {
    RewrittenCounts(table);
    Counts(Rewritten(table))
  }

  lemma {:induction false} LastNeverPasses(table: seq<int>)
    requires Nondecreasing(table) && AllPositive(table)
    ensures Last(Rewritten(table)) <= Last(table)
    decreases |table|
  {
    if table != [] {
      var n := |table| - 1;
      LastNeverPasses(table[..n]);
      assert n > 0 ==> Last(table[..n]) == table[n - 1] <= table[n];
    }
  }

  /** How many entries are beyond image x. */
  function Above(table: seq<int>, x: int): nat {
    if table == [] then 0 else Above(table[..|table| - 1], x) + if table[|table| - 1] > x then 1 else 0
  }

  lemma {:induction false} NoneAbove(table: seq<int>, x: int)
    requires forall i :: 0 <= i < |table| ==> table[i] <= x
    ensures Above(table, x) == 0
    decreases |table|
  {
    if table != [] { NoneAbove(table[..|table| - 1], x); }
  }

  /** The loop rises by one at most with each entry beyond x ... */
  lemma {:induction false} RisesAtMost(table: seq<int>, x: nat)
    requires Nondecreasing(table) && AllPositive(table)
    ensures Last(Rewritten(table)) <= x + Above(table, x)
    decreases |table|
  {
    if table != [] {
      RisesAtMost(table[..|table| - 1], x);
      LastNeverPasses(table);
    }
  }

  /** ... and with each of them from some x on. */
  lemma {:induction false} RisesFrom(table: seq<int>) returns (x: nat)
    requires Nondecreasing(table) && AllPositive(table)
    ensures x <= Last(table) && Last(Rewritten(table)) == x + Above(table, x)
    decreases |table|
  {
    if table == [] {
      x := 0;
    } else {
      var n := |table| - 1;
      var init := table[..n];
      assert n > 0 ==> Last(init) == table[n - 1] <= table[n];
      if table[n] == Last(Rewritten(init)) {
        x := table[n];
        NoneAbove(table, x);
      } else {
        x := RisesFrom(init);
        NoneAbove(init, table[n]);
      }
    }
  }

  /** For every image number there are as many entries beyond it as there are numbers up to the largest. */
  ghost predicate FillsItsGaps(table: seq<int>) {
    forall x :: 0 <= x < Last(table) ==> Above(table, x) >= Last(table) - x
  }

  lemma EndsAtLastIff(table: seq<int>)
    requires Nondecreasing(table) && AllPositive(table)
    ensures Last(Rewritten(table)) == Last(table) <==> FillsItsGaps(table)
  {
    LastNeverPasses(table);
    forall x | 0 <= x < Last(table) ensures Last(Rewritten(table)) <= x + Above(table, x) { RisesAtMost(table, x); }
    var x := RisesFrom(table);
  }

  /** Every entry of the stored table has a stored count exactly when the table has enough entries beyond each of
      its gaps for the loop to make up for them. */
  lemma StoredTableInRangeIff(table: seq<int>)
    requires Nondecreasing(table) && AllPositive(table)
    ensures (forall i :: 0 <= i < |table| ==> 1 <= table[i] <= |StoredCounts(table)|) <==> FillsItsGaps(table)
  {
    RewrittenCounts(table);
    EndsAtLastIff(table);
    LastNeverPasses(table);
    assert |StoredCounts(table)| == Last(Rewritten(table));
    if table != [] { assert table[|table| - 1] == Last(table); }
  }

  lemma WinnerOfOne(x: int)
    ensures IsWinner([x], x)
  {}

  lemma OneRowVotes(table: seq<int>, i: nat)
    requires i < |table|
    ensures var rows := [Row(i, 0.0, 1.0)]; InTable(rows, table) && Votes(rows, table) == [table[i]]
  {
    var rows := [Row(i, 0.0, 1.0)];
    assert rows[..0] == [];
    assert Votes(rows[..0], table) == [];
  }

  /** So no search result whatever makes matchImg look up a missing count, exactly under that condition. */
  lemma EveryQueryHasCountIff(table: seq<int>)
    requires Nondecreasing(table) && AllPositive(table)
    ensures (forall rows :: InTable(rows, table) ==> HasCount(Votes(rows, table), StoredCounts(table)))
       <==> FillsItsGaps(table)
  {
    StoredTableInRangeIff(table);
    hide FillsItsGaps, StoredCounts, Count, First;
    var counts := StoredCounts(table);
    if FillsItsGaps(table) {
      forall rows | InTable(rows, table) ensures HasCount(Votes(rows, table), counts) {
        VotesAreEntries(rows, table);
      }
    } else {
      var i: nat :| i < |table| && !(1 <= table[i] <= |counts|);
      OneRowVotes(table, i);
      WinnerOfOne(table[i]);
      assert !HasCount([table[i]], counts);
    }
  }

  lemma {:induction false} RewrittenSkipsNone(table: seq<int>)
    requires Startable(table)
    ensures NoneSkipped(Rewritten(table))
    decreases |table|
  {
    if table != [] {
      var before := Rewritten(table[..|table| - 1]);
      RewrittenSkipsNone(table[..|table| - 1]);
      RewrittenCounts(table[..|table| - 1]);
      assert forall x :: x in before ==> x in Rewritten(table);
      assert Last(Rewritten(table)) in Rewritten(table);
    }
  }

  /** Each stored count is the number of descriptors that its image has in the stored table. */
  ghost predicate TrueCounts(table: seq<int>)
    requires Startable(table)
  {
    && |StoredCounts(table)| == Last(table)
    && forall x :: 1 <= x <= Last(table) ==> StoredCounts(table)[x - 1] == Count(table, x)
  }

  /** The 1.5% test compares with the true numbers exactly when no image number is skipped. */
  lemma CountsAreTrueIff(table: seq<int>)
    requires Nondecreasing(table) && AllPositive(table)
    ensures TrueCounts(table) <==> NoneSkipped(table)
  {
    var r := Rewritten(table);
    UnchangedIffNoneSkipped(table);
    RewrittenCounts(table);
    RewrittenSkipsNone(table);
    CountsAt(r);
    assert StoredCounts(table) == Counts(r);
    hide Rewritten, Count, Counts, StoredCounts;
    if NoneSkipped(table) { assert TrueCounts(r); }
    if TrueCounts(table) {
      forall x | 1 <= x <= Last(table) ensures x in table {
        CountPositive(r, x);
        CountPositive(table, x);
        assert StoredCounts(table)[x - 1] == Count(r, x);
      }
    }
  }

  /** With one image skipped at the end there is nothing to make up for it: a win of image 3 finds no count. */
  lemma SkippedAtTheEnd()
    ensures Nondecreasing([1, 3]) && AllPositive([1, 3]) && !FillsItsGaps([1, 3])
    ensures |StoredCounts([1, 3])| == 2
  {
    assert [1, 3][..1] == [1] && [1][..0] == [];
    assert Rewritten([]) == [];
    assert Rewritten([1]) == [1];
    assert Rewritten([1, 3]) == [1, 2];
    RewrittenCounts([1, 3]);
    EndsAtLastIff([1, 3]);
  }

  /** The place of the first vote for x. */
  function First(votes: seq<int>, x: int): (f: nat)
    requires x in votes
    ensures f < |votes| && votes[f] == x && forall i :: 0 <= i < f ==> votes[i] != x
  {
    if votes[0] == x then 0 else 1 + First(votes[1..], x)
  }

  lemma FirstAppend(votes: seq<int>, y: int, x: int)
    requires x in votes + [y]
    ensures First(votes + [y], x) == if x in votes then First(votes, x) else |votes|
  {
    var f := First(votes + [y], x);
    if x in votes { assert (votes + [y])[First(votes, x)] == x; }
  }

  datatype ImgFreq = ImgFreq(index: int, freq: int)

  /** One entry for each image voted for, with the number of its votes, in the order of the first votes. */
  ghost predicate IsTally(entries: seq<ImgFreq>, votes: seq<int>) {
    && (forall i :: 0 <= i < |entries| ==>
          entries[i].index in votes && entries[i].freq == Count(votes, entries[i].index))
    && (forall i, j :: 0 <= i < j < |entries| ==>
          entries[i].index in votes && entries[j].index in votes
          && First(votes, entries[i].index) < First(votes, entries[j].index))
    && (forall x :: x in votes ==> HasEntry(entries, x))
  }

  ghost predicate HasEntry(entries: seq<ImgFreq>, x: int) {
    exists i :: 0 <= i < |entries| && entries[i].index == x
  }

  function SumFreqs(entries: seq<ImgFreq>): int {
    if entries == [] then 0 else SumFreqs(entries[..|entries| - 1]) + entries[|entries| - 1].freq
  }

  lemma {:induction false} SumFreqsUpdate(entries: seq<ImgFreq>, i: nat, e: ImgFreq)
    requires i < |entries|
    ensures SumFreqs(entries[i := e]) == SumFreqs(entries) - entries[i].freq + e.freq
    decreases |entries|
  {
    var n := |entries| - 1;
    if i == n {
      assert entries[i := e][..n] == entries[..n];
    } else {
      assert entries[i := e][..n] == entries[..n][i := e];
      SumFreqsUpdate(entries[..n], i, e);
    }
  }

  /** The scan over the entries for one vote. It does not stop at the entry that it finds. */
  method CastVote(entries: seq<ImgFreq>, imgNum: int, ghost votes: seq<int>) returns (next: seq<ImgFreq>)
    requires IsTally(entries, votes) && SumFreqs(entries) == |votes|
    ensures IsTally(next, votes + [imgNum]) && SumFreqs(next) == |votes| + 1
  {
    next := entries;
    var findImgNum := false;
    ghost var at := 0;
    for k := 0 to |entries|
      invariant |next| == |entries|
      invariant !findImgNum ==> next == entries && forall i :: 0 <= i < k ==> entries[i].index != imgNum
      invariant findImgNum ==> 0 <= at < k && entries[at].index == imgNum
                               && next == entries[at := ImgFreq(imgNum, entries[at].freq + 1)]
    {
      if next[k].index == imgNum {
        next := next[k := next[k].(freq := next[k].freq + 1)];
        findImgNum := true;
        at := k;
      }
    }
    if findImgNum {
      SumFreqsUpdate(entries, at, next[at]);
      VoteCounted(entries, votes, imgNum, at);
    } else {
      next := next + [ImgFreq(imgNum, 1)];
      assert next[..|entries|] == entries;
      VoteAdded(entries, votes, imgNum);
    }
  }

  lemma VoteCounted(entries: seq<ImgFreq>, votes: seq<int>, y: int, at: nat)
    requires IsTally(entries, votes) && at < |entries| && entries[at].index == y
    ensures IsTally(entries[at := ImgFreq(y, entries[at].freq + 1)], votes + [y])
  {
    var next := entries[at := ImgFreq(y, entries[at].freq + 1)];
    forall i | 0 <= i < |next|
      ensures next[i].index == entries[i].index && next[i].index in votes
      ensures next[i].freq == Count(votes + [y], next[i].index)
    {
      CountAppend(votes, y, next[i].index);
      if i < at { assert First(votes, entries[i].index) < First(votes, y); }
      if i > at { assert First(votes, y) < First(votes, entries[i].index); }
    }
    forall i, j | 0 <= i < j < |next| ensures First(votes + [y], next[i].index) < First(votes + [y], next[j].index) {
      FirstAppend(votes, y, next[i].index);
      FirstAppend(votes, y, next[j].index);
    }
    forall x | x in votes + [y] ensures HasEntry(next, x) {
      var i :| 0 <= i < |entries| && entries[i].index == x;
      assert next[i].index == x;
    }
  }

  lemma VoteAdded(entries: seq<ImgFreq>, votes: seq<int>, y: int)
    requires IsTally(entries, votes) && forall i :: 0 <= i < |entries| ==> entries[i].index != y
    ensures IsTally(entries + [ImgFreq(y, 1)], votes + [y])
  {
    var next := entries + [ImgFreq(y, 1)];
    forall x | x in votes ensures x != y { assert HasEntry(entries, x); }
    CountPositive(votes, y);
    forall i | 0 <= i < |next| ensures next[i].freq == Count(votes + [y], next[i].index) {
      CountAppend(votes, y, next[i].index);
    }
    forall i, j | 0 <= i < j < |next| ensures First(votes + [y], next[i].index) < First(votes + [y], next[j].index) {
      FirstAppend(votes, y, next[i].index);
      FirstAppend(votes, y, next[j].index);
    }
    forall x | x in votes + [y] ensures HasEntry(next, x) {
      if x in votes {
        var i :| 0 <= i < |entries| && entries[i].index == x;
        assert next[i].index == x;
      } else {
        assert next[|entries|].index == x;
      }
    }
  }

  /** The best match: an image with the most votes, and of those the one first voted for latest. */
  ghost predicate IsWinner(votes: seq<int>, w: int) {
    && w in votes
    && forall x :: x in votes ==>
         && Count(votes, x) <= Count(votes, w)
         && (Count(votes, x) == Count(votes, w) ==> First(votes, x) <= First(votes, w))
  }

  /** Said of the votes alone: no image has more, and of those with as many its first vote is the last to come. */
  lemma WinnerIff(votes: seq<int>, w: int)
    ensures IsWinner(votes, w) <==>
      && w in votes
      && forall x :: x in votes ==>
           && multiset(votes)[x] <= multiset(votes)[w]
           && (multiset(votes)[x] == multiset(votes)[w] && x != w ==>
                 exists i :: 0 <= i < |votes| && votes[i] == x && w !in votes[..i])
  {
    forall x ensures Count(votes, x) == multiset(votes)[x] { CountIsMultiplicity(votes, x); }
    if w in votes {
      forall x | x in votes && x != w
        ensures First(votes, x) <= First(votes, w)
           <==> exists i :: 0 <= i < |votes| && votes[i] == x && w !in votes[..i]
      {
        FirstIsEarlier(votes, x, w);
      }
    }
  }

  lemma FirstIsEarlier(votes: seq<int>, x: int, w: int)
    requires x in votes && w in votes && x != w
    ensures First(votes, x) <= First(votes, w) <==> exists i :: 0 <= i < |votes| && votes[i] == x && w !in votes[..i]
  {
    var f, g := First(votes, x), First(votes, w);
    assert votes[f] == x && votes[g] == w;
    if f <= g { assert w !in votes[..f]; }
    forall i | 0 <= i < |votes| && votes[i] == x && g < f ensures w in votes[..i] { assert votes[..i][g] == w; }
  }

  lemma WinnerIsUnique(votes: seq<int>, v: int, w: int)
    requires IsWinner(votes, v) && IsWinner(votes, w)
    ensures v == w
  {
    assert votes[First(votes, v)] == v && votes[First(votes, w)] == w;
  }

  /** The maximum and the selection over the entries. */
  method Select(entries: seq<ImgFreq>, ghost votes: seq<int>) returns (maxFreq: int, matched: int)
    requires IsTally(entries, votes)
    ensures votes == [] ==> matched == 0
    ensures votes != [] ==> IsWinner(votes, matched) && maxFreq == Count(votes, matched)
  {
    maxFreq := 1;
    ghost var best := -1;
    forall i | 0 <= i < |entries| ensures entries[i].freq >= 1 { CountPositive(votes, entries[i].index); }
    for k := 0 to |entries|
      invariant maxFreq >= 1 && forall i :: 0 <= i < k ==> entries[i].freq <= maxFreq
      invariant if k == 0 then maxFreq == 1 else 0 <= best < k && entries[best].freq == maxFreq
    {
      if entries[k].freq > maxFreq {
        maxFreq := entries[k].freq;
      }
      if entries[k].freq == maxFreq { best := k; }
    }
    matched := 0;
    ghost var chosen := -1;
    for k := 0 to |entries|
      invariant chosen < k && (chosen < 0 ==> matched == 0)
      invariant chosen >= 0 ==> matched == entries[chosen].index && entries[chosen].freq == maxFreq
      invariant forall i :: chosen < i < k && 0 <= i ==> entries[i].freq != maxFreq
    {
      if entries[k].freq == maxFreq {
        matched := entries[k].index;
        chosen := k;
      }
    }
    if votes != [] {
      assert HasEntry(entries, votes[0]);
      LastMaximumWins(entries, votes, chosen);
    }
  }

  lemma LastMaximumWins(entries: seq<ImgFreq>, votes: seq<int>, c: nat)
    requires IsTally(entries, votes) && c < |entries|
    requires forall i :: 0 <= i < |entries| ==> entries[i].freq <= entries[c].freq
    requires forall i :: c < i < |entries| ==> entries[i].freq != entries[c].freq
    ensures IsWinner(votes, entries[c].index)
  {
    var w := entries[c].index;
    forall x | x in votes
      ensures Count(votes, x) <= Count(votes, w)
      ensures Count(votes, x) == Count(votes, w) ==> First(votes, x) <= First(votes, w)
    {
      assert HasEntry(entries, x);
      var i :| 0 <= i < |entries| && entries[i].index == x;
      if i < c { assert First(votes, x) < First(votes, w); }
    }
  }

  /** The loop over the search result: every row that passes the ratio test votes. */
  method CastVotes(rows: seq<Row>, table: seq<int>) returns (imgFreq: seq<ImgFreq>)
    requires InTable(rows, table)
    ensures IsTally(imgFreq, Votes(rows, table)) && SumFreqs(imgFreq) == |Votes(rows, table)|
  {
    ghost var votes: seq<int> := [];
    imgFreq := [];
    assert IsTally(imgFreq, votes) && SumFreqs(imgFreq) == |votes|;
    hide IsTally, SumFreqs;
    for i := 0 to |rows|
      invariant votes == Votes(rows[..i], table)
      invariant IsTally(imgFreq, votes) && SumFreqs(imgFreq) == |votes|
    {
      assert rows[..i + 1][..i] == rows[..i];
      if rows[i].dist0 < rows[i].dist1 * 0.8 {
        var imgNum := table[rows[i].nearest];
        imgFreq := CastVote(imgFreq, imgNum, votes);
        votes := votes + [imgNum];
      }
    }
    assert rows[..|rows|] == rows;
  }

  /** matchImg from the search result on: the best match, or 0 when nothing voted or it has fewer votes than 1.5% of
      its image's descriptors. */
  method MatchImg(rows: seq<Row>, table: seq<int>, dscCnt: seq<int>) returns (matchedImgIndex: int)
    requires InTable(rows, table) && HasCount(Votes(rows, table), dscCnt)
    ensures var votes := Votes(rows, table);
            && (votes == [] ==> matchedImgIndex == 0)
            && (votes != [] ==> exists w :: IsWinner(votes, w))
            && forall w :: IsWinner(votes, w) ==>
                 matchedImgIndex == if w != 0 && 1000 * multiset(votes)[w] < 15 * dscCnt[w - 1] then 0 else w
  {
    var imgFreq := CastVotes(rows, table);
    ghost var votes := Votes(rows, table);
    hide Votes, IsTally, IsWinner, InTable;
    var maxFreq;
    maxFreq, matchedImgIndex := Select(imgFreq, votes);
    OnlyWinner(votes, matchedImgIndex);
    CountIsMultiplicity(votes, matchedImgIndex);
    if matchedImgIndex != 0 {
      Threshold(maxFreq, dscCnt[matchedImgIndex - 1]);
      if maxFreq as real < 0.015 * dscCnt[matchedImgIndex - 1] as real {
        return 0;
      }
    }
  }

  lemma Threshold(freq: int, descriptors: int)
    ensures freq as real < 0.015 * descriptors as real <==> 1000 * freq < 15 * descriptors
  {}

  lemma OnlyWinner(votes: seq<int>, v: int)
    ensures votes == [] ==> forall w :: !IsWinner(votes, w)
    ensures IsWinner(votes, v) ==> forall w :: IsWinner(votes, w) ==> w == v
  {
    if IsWinner(votes, v) {
      forall w | IsWinner(votes, w) ensures w == v { WinnerIsUnique(votes, v, w); }
    }
  }

  /** What a tally says of the votes. */
  lemma TallyMeans(entries: seq<ImgFreq>, votes: seq<int>)
    requires IsTally(entries, votes)
    ensures forall i :: 0 <= i < |entries| ==> entries[i].freq == multiset(votes)[entries[i].index] > 0
    ensures forall x :: x in votes ==> exists i :: 0 <= i < |entries| && entries[i].index == x
    ensures forall i, j :: 0 <= i < j < |entries| ==>
      exists p :: 0 <= p < |votes| && votes[p] == entries[i].index && entries[j].index !in votes[..p + 1]
  {
    forall i | 0 <= i < |entries| ensures entries[i].freq == multiset(votes)[entries[i].index] > 0 {
      CountIsMultiplicity(votes, entries[i].index);
      CountPositive(votes, entries[i].index);
    }
    forall x | x in votes ensures exists i :: 0 <= i < |entries| && entries[i].index == x {
      assert HasEntry(entries, x);
    }
    forall i, j | 0 <= i < j < |entries|
      ensures exists p :: 0 <= p < |votes| && votes[p] == entries[i].index && entries[j].index !in votes[..p + 1]
    {
      var p := First(votes, entries[i].index);
      assert First(votes, entries[j].index) > p;
      assert entries[j].index !in votes[..p + 1];
    }
  }
}
