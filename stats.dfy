/** The statistics of the ui.js panel: the score of a stored game, the
    "last N games" window, the overview numbers (count, rounded mean score,
    the three best games) and the per-tab breakdowns of the solved records
    (carry/borrow buckets and the times-table rows). Only the numbers and
    buckets are modelled, not the HTML they are written into. */
module Stats {
  import opened Wrappers
  import opened JsText
  import opened ContentParser
  import opened Classifier
  import opened Tracker

  /** A stored game: its `score` text (`"Score: N"`) and its `solved`
      records, either of which may be missing. */
  datatype Game = Game(score: Option<string>, solved: Option<seq<SolvedRecord>>)

  /* ---------------- extractScore ---------------- */

  /** The position of the first decimal digit. */
  function FirstDigit(s: string): (r: Option<nat>)
    ensures r.None? <==> forall i :: 0 <= i < |s| ==> !IsDigit(s[i])
    ensures r.Some? ==> r.value < |s| && IsDigit(s[r.value])
                        && forall i :: 0 <= i < r.value ==> !IsDigit(s[i])
  {
    if s == [] then None
    else if IsDigit(s[0]) then Some(0)
    else
      match FirstDigit(s[1..])
      case None => None
      case Some(i) => Some(i + 1)
  }

  /** `s.match(/\d+/)[0]`: the first maximal run of decimal digits. */
  function DigitRun(s: string): (r: Option<string>)
    ensures r.None? <==> forall i :: 0 <= i < |s| ==> !IsDigit(s[i])
    ensures r.Some? ==> var i := FirstDigit(s).value;
                        && r.value != [] && AllDigits(r.value)
                        && i + |r.value| <= |s| && s[i..i + |r.value|] == r.value
                        && (i + |r.value| == |s| || !IsDigit(s[i + |r.value|]))
  {
    match FirstDigit(s)
    case None => None
    case Some(i) =>
      var d := LeadingDigits(s[i..]);
      assert d != [] by { assert IsDigit(s[i..][0]); }
      Some(d)
  }

  /** `extractScore(game)`: 0 without a score text or without a digit in it,
      otherwise the value of the first run of digits (a sign before it is
      not part of the match). */
  function ExtractScore(g: Game): (n: nat)
    ensures g.score.None? ==> n == 0
    ensures g.score.Some? ==> n == ScoreOfText(g.score.value)
  {
    if g.score.None? || g.score.value == [] then 0 else ScoreOfText(g.score.value)
  }

  /** `parseInt(match[0], 10)` of the first run of digits, or 0. */
  function ScoreOfText(s: string): (n: nat)
    ensures DigitRun(s).None? ==> n == 0
    ensures DigitRun(s).Some? ==> n == DigitsValue(DigitRun(s).value)
  {
    match DigitRun(s)
    case None => 0
    case Some(d) =>
      ParseIntOfDigits(d);
      var v := ParseInt(d).value;
      v
  }

  /** Round trip: a score shown after any text without digits (such as
      `"Score: "`, or a minus sign) is read back as its value. */
  lemma ExtractScoreShown(prefix: string, n: nat, solved: Option<seq<SolvedRecord>>)
    requires forall i :: 0 <= i < |prefix| ==> !IsDigit(prefix[i])
    ensures ExtractScore(Game(Some(prefix + NatStr(n)), solved)) == n
  {
    var s := prefix + NatStr(n);
    var d := NatStr(n);
    assert s[|prefix|] == d[0];
    assert IsDigit(d[0]);
    var i := FirstDigit(s).value;
    assert i == |prefix|;
    assert s[i..] == d + [];
    LeadingDigitsThen(d, []);
    DigitsValueOfNatStr(n);
  }

  /* ---------------- getFilteredHistory ---------------- */

  /** The range chosen in the selector: `parseInt(selector.value, 10)`
      (`None` is NaN), or 999999 when there is no selector element. */
  function RangeOf(selector: Option<string>): Option<int> {
    if selector.None? then Some(999999) else ParseInt(selector.value)
  }

  /** The index `Array.prototype.slice(start)` begins at: a negative start
      counts from the end, and both are clamped to the length. */
  function SliceStart(len: nat, start: int): (from: nat)
    ensures from <= len
    ensures start < 0 ==> from == Max(len + start, 0)
    ensures start >= 0 ==> from == Min(start, len)
  {
    if start < 0 then Max(len + start, 0) else Min(start, len)
  }

  /** `getFilteredHistory(history)`: `history.slice(-range)`. A NaN range
      becomes the start 0, and so does a range of 0. */
  function FilteredHistory(history: seq<Game>, selector: Option<string>): (r: seq<Game>)
    ensures |r| <= |history| && r == history[|history| - |r|..]
    ensures RangeOf(selector).None? ==> r == history
    ensures RangeOf(selector) == Some(0) ==> r == history
    ensures RangeOf(selector).Some? && RangeOf(selector).value > 0 ==>
              |r| == Min(RangeOf(selector).value, |history|)
    ensures RangeOf(selector).Some? && RangeOf(selector).value < 0 ==>
              |r| == Max(|history| + RangeOf(selector).value, 0)
  {
    var range := RangeOf(selector);
    var start := if range.None? then 0 else -range.value;
    history[SliceStart(|history|, start)..]
  }

  /** Choosing "last N games" keeps the last min(N, |history|) games in
      their stored order; without a selector at most the last 999999. */
  lemma FilteredHistoryLastN(history: seq<Game>, n: nat)
    requires n > 0
    ensures FilteredHistory(history, Some(NatStr(n))) == history[|history| - Min(n, |history|)..]
    ensures FilteredHistory(history, None) == history[|history| - Min(999999, |history|)..]
  {
    ParseIntOfStr(n);
  }

  /* ---------------- data points ---------------- */

  /** `g.solved || []`. */
  function SolvedOf(g: Game): seq<SolvedRecord> {
    if g.solved.Some? then g.solved.value else []
  }

  /** `history.flatMap(g => g.solved || [])`: every record of every game,
      game by game, and nothing else. */
  function DataPoints(history: seq<Game>): (d: seq<SolvedRecord>)
    ensures forall i, x :: 0 <= i < |history| && x in SolvedOf(history[i]) ==> x in d
    ensures forall x :: x in d ==> exists i :: 0 <= i < |history| && x in SolvedOf(history[i])
  {
    if history == [] then []
    else
      var rest := DataPoints(history[1..]);
      assert forall i, x :: 1 <= i < |history| && x in SolvedOf(history[i]) ==> x in rest by {
        forall i, x | 1 <= i < |history| && x in SolvedOf(history[i]) ensures x in rest {
          assert history[i] == history[1..][i - 1];
        }
      }
      assert forall x :: x in rest ==> exists i :: 0 <= i < |history| && x in SolvedOf(history[i]) by {
        forall x | x in rest ensures exists i :: 0 <= i < |history| && x in SolvedOf(history[i]) {
          var j :| 0 <= j < |history| - 1 && x in SolvedOf(history[1..][j]);
          assert history[1..][j] == history[j + 1];
        }
      }
      SolvedOf(history[0]) + rest
  }

  /** The records of a single game are its own records, in order. */
  lemma DataPointsOfGame(g: Game)
    ensures DataPoints([g]) == SolvedOf(g)
  {
    assert [g][1..] == [];
  }

  /** `flatMap` over two runs of games is the records of the first run
      followed by those of the second: order and repeats are kept. */
  lemma {:induction false} DataPointsAppend(h1: seq<Game>, h2: seq<Game>)
    ensures DataPoints(h1 + h2) == DataPoints(h1) + DataPoints(h2)
  {
    if h1 == [] {
      assert h1 + h2 == h2;
    } else {
      assert (h1 + h2)[1..] == h1[1..] + h2;
      DataPointsAppend(h1[1..], h2);
    }
  }

  /* ---------------- computeOverviewStats ---------------- */

  /** The sum of the scores of the games. */
  function ScoreSum(history: seq<Game>): int {
    if history == [] then 0 else ExtractScore(history[0]) + ScoreSum(history[1..])
  }

  /** `Math.round(sum / n)`, i.e. the floor of `sum / n + 1/2`: the integer
      nearest to the mean, halves rounded up. */
  function RoundedMean(sum: int, n: nat): (r: int)
    requires n > 0
    ensures n * (2 * r - 1) <= 2 * sum < n * (2 * r + 1)
  {
    var r := (2 * sum + n) / (2 * n);
    RoundedMeanBounds(2 * sum + n, 2 * n, r);
    r
  }

  lemma RoundedMeanBounds(x: int, m: int, q: int)
    requires m > 0 && q == x / m
    ensures m * q <= x < m * q + m
  {
  }

  /** Non-increasing keys. */
  predicate SortedBy(key: Game -> int, s: seq<Game>) {
    forall j, k :: 0 <= j < k < |s| ==> key(s[j]) >= key(s[k])
  }

  /** Place `g` before the first game of `sorted` whose key is not higher,
      hence after every game with the same key. */
  function InsertBy(key: Game -> int, g: Game, sorted: seq<Game>): (r: seq<Game>)
    ensures |r| == |sorted| + 1
    ensures multiset(r) == multiset(sorted) + multiset{g}
  {
    if sorted == [] || key(sorted[0]) <= key(g) then [g] + sorted
    else
      assert sorted == [sorted[0]] + sorted[1..];
      [sorted[0]] + InsertBy(key, g, sorted[1..])
  }

  /** `[...history].sort((a, b) => key(b) - key(a))`: the comparator is
      consistent and the sort is stable, so the result is the stable sort
      by non-increasing key, built here by inserting each game into the
      sorted rest. */
  function SortBy(key: Game -> int, history: seq<Game>): (r: seq<Game>)
    ensures |r| == |history|
    ensures multiset(r) == multiset(history)
  {
    if history == [] then []
    else
      assert history == [history[0]] + history[1..];
      InsertBy(key, history[0], SortBy(key, history[1..]))
  }

  /** The games with key `v`, in order. */
  function WithKey(key: Game -> int, s: seq<Game>, v: int): seq<Game> {
    if s == [] then []
    else (if key(s[0]) == v then [s[0]] else []) + WithKey(key, s[1..], v)
  }

  datatype Overview = NoGames | Summary(totalGames: nat, avgScore: int, topGames: seq<Game>)

  /** `computeOverviewStats(history)`, without the HTML: no games, or the
      number of games, the rounded mean score and the first three of the
      copy sorted by score. */
  function ComputeOverviewStats(history: seq<Game>): (o: Overview)
    ensures history == [] <==> o.NoGames?
    ensures o.Summary? ==> o.totalGames == |history|
    ensures o.Summary? ==> |history| * (2 * o.avgScore - 1) <= 2 * ScoreSum(history) < |history| * (2 * o.avgScore + 1)
    ensures o.Summary? ==> |o.topGames| == Min(3, |history|)
    ensures o.Summary? ==> o.topGames == SortBy(ExtractScore, history)[..|o.topGames|]
  {
    if history == [] then NoGames
    else
      var top := SortBy(ExtractScore, history)[..Min(3, |history|)];
      Summary(|history|, RoundedMean(ScoreSum(history), |history|), top)
  }

  /* ---------------- lemmas about the overview ---------------- */

  lemma {:induction false} InsertBySorted(key: Game -> int, g: Game, s: seq<Game>)
    requires SortedBy(key, s)
    ensures SortedBy(key, InsertBy(key, g, s))
  {
    if s == [] || key(s[0]) <= key(g) {
    } else {
      var t := InsertBy(key, g, s[1..]);
      InsertBySorted(key, g, s[1..]);
      forall k | 0 <= k < |t| ensures key(s[0]) >= key(t[k]) {
        assert t[k] in multiset(t);
        if t[k] != g {
          assert t[k] in multiset(s[1..]);
          var j :| 0 <= j < |s[1..]| && s[1..][j] == t[k];
          assert s[j + 1] == t[k];
        }
      }
    }
  }

  /** The sorted copy has non-increasing keys. */
  lemma {:induction false} SortBySorted(key: Game -> int, history: seq<Game>)
    ensures SortedBy(key, SortBy(key, history))
  {
    if history != [] {
      SortBySorted(key, history[1..]);
      InsertBySorted(key, history[0], SortBy(key, history[1..]));
    }
  }

  lemma WithKeyCons(key: Game -> int, x: Game, t: seq<Game>, v: int)
    ensures WithKey(key, [x] + t, v) == (if key(x) == v then [x] else []) + WithKey(key, t, v)
  {
    assert ([x] + t)[1..] == t;
  }

  lemma {:induction false} InsertByStable(key: Game -> int, g: Game, s: seq<Game>, v: int)
    ensures WithKey(key, InsertBy(key, g, s), v) == (if key(g) == v then [g] else []) + WithKey(key, s, v)
  {
    if s == [] || key(s[0]) <= key(g) {
      WithKeyCons(key, g, s, v);
    } else {
      var t := InsertBy(key, g, s[1..]);
      InsertByStable(key, g, s[1..], v);
      WithKeyCons(key, s[0], t, v);
      assert s == [s[0]] + s[1..];
      WithKeyCons(key, s[0], s[1..], v);
    }
  }

  /** Stability: the games with any one key appear in the sorted copy in
      the order they have in the history. */
  lemma {:induction false} SortByStable(key: Game -> int, history: seq<Game>, v: int)
    ensures WithKey(key, SortBy(key, history), v) == WithKey(key, history, v)
  {
    if history != [] {
      SortByStable(key, history[1..], v);
      InsertByStable(key, history[0], SortBy(key, history[1..]), v);
    }
  }

  /** A prefix of a sorted permutation: it comes from the history, is
      sorted, and nothing left out has a higher key than any of it. */
  lemma SortedPrefixIsBest(key: Game -> int, history: seq<Game>, n: nat)
    requires n <= |history|
    ensures var top := SortBy(key, history)[..n];
            && SortedBy(key, top)
            && multiset(top) <= multiset(history)
            && NoneLeftOutHigher(key, history, top)
  {
    var sorted := SortBy(key, history);
    SortBySorted(key, history);
    MultisetOfSplit(sorted, n);
    PrefixBeatsRest(key, sorted, n);
  }

  lemma MultisetOfSplit(s: seq<Game>, n: nat)
    requires n <= |s|
    ensures multiset(s) == multiset(s[..n]) + multiset(s[n..])
  {
    assert s == s[..n] + s[n..];
  }

  lemma PrefixBeatsRest(key: Game -> int, sorted: seq<Game>, n: nat)
    requires n <= |sorted| && SortedBy(key, sorted)
    ensures SortedBy(key, sorted[..n])
    ensures forall g, k :: g in multiset(sorted[n..]) && 0 <= k < n ==> key(g) <= key(sorted[..n][k])
  {
    forall g, k | g in multiset(sorted[n..]) && 0 <= k < n
      ensures key(g) <= key(sorted[..n][k])
    {
      var j :| 0 <= j < |sorted[n..]| && sorted[n..][j] == g;
      assert sorted[n + j] == g && sorted[k] == sorted[..n][k];
    }
  }

  /** Every game of `all` outside `top` has a key no higher than any game
      of `top`. */
  predicate NoneLeftOutHigher(key: Game -> int, all: seq<Game>, top: seq<Game>) {
    forall g, k :: g in multiset(all) - multiset(top) && 0 <= k < |top| ==> key(g) <= key(top[k])
  }

  /** The top games of the overview come from the history, have
      non-increasing scores, no game left out scores higher than any of
      them, and games of equal score keep their order in the history. */
  lemma TopGamesAreBest(history: seq<Game>, v: int)
    requires history != []
    ensures var top := ComputeOverviewStats(history).topGames;
            && SortedBy(ExtractScore, top)
            && multiset(top) <= multiset(history)
            && NoneLeftOutHigher(ExtractScore, history, top)
            && WithKey(ExtractScore, SortBy(ExtractScore, history), v) == WithKey(ExtractScore, history, v)
  {
    SortedPrefixIsBest(ExtractScore, history, Min(3, |history|));
    SortByStable(ExtractScore, history, v);
  }

  /* ---------------- avg, buckets and tableStats ---------------- */

  /** The sum of the `time` fields. */
  function TimeSum(records: seq<SolvedRecord>): int {
    if records == [] then 0 else records[0].time + TimeSum(records[1..])
  }

  /** `avg(arr)` without the formatting: `None` for `"N/A"`, otherwise the
      mean time. */
  function Avg(records: seq<SolvedRecord>): (m: Option<real>)
    ensures m.None? <==> records == []
    ensures m.Some? ==> m.value * (|records| as real) == TimeSum(records) as real
  {
    if records == [] then None else Some(TimeSum(records) as real / (|records| as real))
  }

  /** `q[key] === value`: the record has that property with that value. */
  predicate HasField(r: SolvedRecord, key: ExtraKey, value: string) {
    r.extraKey == key && r.extraValue == value
  }

  /** `data.filter(q => q.operation === op && q[key] === value)`. */
  function Matching(data: seq<SolvedRecord>, op: Operation, key: ExtraKey, value: string): (m: seq<SolvedRecord>)
    ensures |m| <= |data|
    ensures forall x :: x in m <==> x in data && x.operation == op && HasField(x, key, value)
  {
    if data == [] then []
    else
      (if data[0].operation == op && HasField(data[0], key, value) then [data[0]] else [])
      + Matching(data[1..], op, key, value)
  }

  /** No record of the operation has the property with that value. */
  predicate NoneMatch(data: seq<SolvedRecord>, op: Operation, key: ExtraKey, value: string) {
    forall x :: x in data ==> !(x.operation == op && HasField(x, key, value))
  }

  /** Each record that passes the filter occurs in the result exactly as
      often as in `data`, and no other record occurs: repeats are kept. */
  lemma {:induction false} MatchingCounts(data: seq<SolvedRecord>, op: Operation, key: ExtraKey, value: string)
    ensures forall x :: multiset(Matching(data, op, key, value))[x]
                        == if x.operation == op && HasField(x, key, value) then multiset(data)[x] else 0
  {
    if data != [] {
      assert data == [data[0]] + data[1..];
      MatchingCounts(data[1..], op, key, value);
    }
  }

  /** `filter` over two runs of records is the filter of the first run
      followed by that of the second: order and repeats are kept. */
  lemma {:induction false} MatchingAppend(d1: seq<SolvedRecord>, d2: seq<SolvedRecord>, op: Operation, key: ExtraKey, value: string)
    ensures Matching(d1 + d2, op, key, value) == Matching(d1, op, key, value) + Matching(d2, op, key, value)
  {
    if d1 == [] {
      assert d1 + d2 == d2;
    } else {
      assert (d1 + d2)[1..] == d1[1..] + d2;
      MatchingAppend(d1[1..], d2, op, key, value);
    }
  }

  /** A row of the times-table breakdown: the table number and the mean
      time of its records, `None` for `null`. */
  datatype Row = Row(i: int, avgTime: Option<real>)

  /** The row the loop of `tableStats` builds for table `i`. */
  function RowFor(data: seq<SolvedRecord>, op: Operation, key: ExtraKey, i: int): (row: Row)
    ensures row.i == i
    ensures row.avgTime.None? <==> NoneMatch(data, op, key, Str(i))
  {
    var matching := Matching(data, op, key, Str(i));
    assert matching == [] <==> NoneMatch(data, op, key, Str(i)) by {
      if matching != [] { assert matching[0] in matching; }
    }
    Row(i, Avg(matching))
  }

  /** The eleven rows for tables 2 to 12, in table order. */
  function TableRows(data: seq<SolvedRecord>, op: Operation, key: ExtraKey): (rows: seq<Row>)
    ensures |rows| == 11
    ensures forall k :: 0 <= k < 11 ==> rows[k] == RowFor(data, op, key, k + 2)
  {
    seq(11, k => RowFor(data, op, key, k + 2))
  }

  /** The order the comparator of `tableStats` means: a row with data comes
      before a row without, and a slower row before a faster one. */
  predicate RowBefore(x: Row, y: Row) {
    y.avgTime.None? || (x.avgTime.Some? && x.avgTime.value >= y.avgTime.value)
  }

  /** The comparator of `tableStats` as written: positive puts `x` after
      `y`. Two rows without data each want to go after the other. */
  function SourceCompare(x: Row, y: Row): real {
    if x.avgTime.None? then 1.0
    else if y.avgTime.None? then -1.0
    else y.avgTime.value - x.avgTime.value
  }

  /** The written comparator is not consistent: for two rows without data
      it answers "after" both ways round. */
  lemma SourceCompareInconsistent(x: Row, y: Row)
    requires x.avgTime.None? && y.avgTime.None?
    ensures SourceCompare(x, y) > 0.0 && SourceCompare(y, x) > 0.0
  {
  }

  /** Wherever the written comparator is consistent (not both rows without
      data), `RowBefore` is exactly "the comparator does not put `x` after
      `y`"; and `RowBefore` is a total preorder. */
  lemma RowBeforeMatchesComparator(x: Row, y: Row, z: Row)
    ensures !(x.avgTime.None? && y.avgTime.None?) ==> (RowBefore(x, y) <==> SourceCompare(x, y) <= 0.0)
    ensures RowBefore(x, y) || RowBefore(y, x)
    ensures RowBefore(x, y) && RowBefore(y, z) ==> RowBefore(x, z)
  {
  }

  predicate RowsSorted(rows: seq<Row>) {
    forall j, k :: 0 <= j < k < |rows| ==> RowBefore(rows[j], rows[k])
  }

  /** `rows.sort(...)` on the array of rows, as an insertion sort. */
  method SortRows(a: array<Row>)
    modifies a
    ensures RowsSorted(a[..])
    ensures multiset(a[..]) == multiset(old(a[..]))
  {
    var n := 0;
    while n < a.Length
      invariant 0 <= n <= a.Length
      invariant forall j, k :: 0 <= j < k < n ==> RowBefore(a[j], a[k])
      invariant multiset(a[..]) == multiset(old(a[..]))
    {
      var m := n;
      while 0 < m && !RowBefore(a[m - 1], a[m])
        invariant 0 <= m <= n
        invariant forall j, k :: 0 <= j < k <= n && j != m && k != m ==> RowBefore(a[j], a[k])
        invariant forall k :: m < k <= n ==> RowBefore(a[m], a[k])
        invariant multiset(a[..]) == multiset(old(a[..]))
      {
        a[m - 1], a[m] := a[m], a[m - 1];
        m := m - 1;
      }
      n := n + 1;
    }
  }

  /** `tableStats(data, op, key)` without the text of each row: one row per
      table 2 to 12, then sorted so that rows with data come first, slowest
      first. */
  method TableStats(data: seq<SolvedRecord>, op: Operation, key: ExtraKey) returns (rows: seq<Row>)
    ensures |rows| == 11
    ensures multiset(rows) == multiset(TableRows(data, op, key))
    ensures RowsSorted(rows)
    ensures forall j, k :: 0 <= j < k < |rows| && rows[j].avgTime.None? ==> rows[k].avgTime.None?
    ensures forall j, k :: 0 <= j < k < |rows| && rows[k].avgTime.Some? ==>
              rows[j].avgTime.Some? && rows[j].avgTime.value >= rows[k].avgTime.value
  {
    var a := BuildRows(data, op, key);
    SortRows(a);
    rows := a[..];
  }

  /** The loop of `tableStats` that pushes one row per table, 2 to 12. */
  method BuildRows(data: seq<SolvedRecord>, op: Operation, key: ExtraKey) returns (a: array<Row>)
    ensures fresh(a)
    ensures a[..] == TableRows(data, op, key)
  {
    a := new Row[11];
    for i := 2 to 13
      invariant forall k :: 0 <= k < i - 2 ==> a[k] == RowFor(data, op, key, k + 2)
    {
      a[i - 2] := RowFor(data, op, key, i);
    }
  }

  /** The panel tabs that reach `computeFilteredTabStats`; any other tab
      name (the overview included) is `OtherTab`. */
  datatype Tab = AdditionTab | SubtractionTab | MultiplicationTab | DivisionTab | OtherTab

  /** What a tab shows: `"No data yet"`, the two averages of a with/without
      split, the table rows, or `"No data"`. */
  datatype TabStats = NoDataYet | Buckets(withFlag: Option<real>, withoutFlag: Option<real>) | Table(rows: seq<Row>) | NoData

  /** `computeFilteredTabStats(data)` for the current tab. */
  method ComputeFilteredTabStats(data: seq<SolvedRecord>, tab: Tab) returns (stats: TabStats)
    ensures data == [] <==> stats.NoDataYet?
    ensures data != [] && tab == AdditionTab ==>
              stats == Buckets(Avg(Matching(data, Addition, Carry, "True")), Avg(Matching(data, Addition, Carry, "False")))
    ensures data != [] && tab == SubtractionTab ==>
              stats == Buckets(Avg(Matching(data, Subtraction, Borrow, "True")), Avg(Matching(data, Subtraction, Borrow, "False")))
    ensures data != [] && tab == MultiplicationTab ==>
              stats.Table? && multiset(stats.rows) == multiset(TableRows(data, Multiplication, Table1)) && RowsSorted(stats.rows)
    ensures data != [] && tab == DivisionTab ==>
              stats.Table? && multiset(stats.rows) == multiset(TableRows(data, Division, Table2)) && RowsSorted(stats.rows)
    ensures data != [] && tab == OtherTab ==> stats == NoData
  {
    if data == [] {
      return NoDataYet;
    }
    match tab
    case AdditionTab =>
      stats := Buckets(Avg(Matching(data, Addition, Carry, "True")), Avg(Matching(data, Addition, Carry, "False")));
    case SubtractionTab =>
      stats := Buckets(Avg(Matching(data, Subtraction, Borrow, "True")), Avg(Matching(data, Subtraction, Borrow, "False")));
    case MultiplicationTab =>
      var rows := TableStats(data, Multiplication, Table1);
      stats := Table(rows);
    case DivisionTab =>
      var rows := TableStats(data, Division, Table2);
      stats := Table(rows);
    case OtherTab =>
      stats := NoData;
  }

  /* ---------------- lemmas about the tabs ---------------- */

  /** The records of one operation. */
  function OfOperation(data: seq<SolvedRecord>, op: Operation): seq<SolvedRecord> {
    if data == [] then []
    else (if data[0].operation == op then [data[0]] else []) + OfOperation(data[1..], op)
  }

  /** When every record of `op` carries `key` with `"True"` or `"False"`,
      the two buckets split those records between them. */
  lemma {:induction false} FlagBucketsPartition(data: seq<SolvedRecord>, op: Operation, key: ExtraKey)
    requires forall x :: x in data && x.operation == op ==>
               x.extraKey == key && (x.extraValue == "True" || x.extraValue == "False")
    ensures |Matching(data, op, key, "True")| + |Matching(data, op, key, "False")| == |OfOperation(data, op)|
  {
    if data != [] {
      var x, rest := data[0], data[1..];
      assert x in data;
      assert forall y :: y in rest ==> y in data;
      FlagBucketsPartition(rest, op, key);
      assert |Matching(data, op, key, "True")| == (if x.operation == op && HasField(x, key, "True") then 1 else 0) + |Matching(rest, op, key, "True")|;
      assert |Matching(data, op, key, "False")| == (if x.operation == op && HasField(x, key, "False") then 1 else 0) + |Matching(rest, op, key, "False")|;
      assert |OfOperation(data, op)| == (if x.operation == op then 1 else 0) + |OfOperation(rest, op)|;
    }
  }

  /** The Addition tab splits every addition record into the carry and
      no-carry buckets, and the Subtraction tab every subtraction record into
      the borrow and no-borrow buckets. */
  lemma CarryBorrowPartition(data: seq<SolvedRecord>)
    requires AllWellFormed(data)
    ensures |Matching(data, Addition, Carry, "True")| + |Matching(data, Addition, Carry, "False")|
            == |OfOperation(data, Addition)|
    ensures |Matching(data, Subtraction, Borrow, "True")| + |Matching(data, Subtraction, Borrow, "False")|
            == |OfOperation(data, Subtraction)|
  {
    forall x | x in data ensures WellFormed(x) {
      var i :| 0 <= i < |data| && data[i] == x;
    }
    FlagBucketsPartition(data, Addition, Carry);
    FlagBucketsPartition(data, Subtraction, Borrow);
  }

  lemma LabelNotNone(i: int)
    requires 2 <= i <= 12
    ensures Str(i) != "None"
  {
    assert IsDigit(Str(i)[0]);
  }

  /** The record of a multiplication fact is counted in row `i` of the
      Multiplication tab exactly when its first operand is `i`; a division
      fact in row `i` of the Division tab exactly when its second is. */
  lemma TableRowMembership(f: Fact, time: int, i: int)
    requires 2 <= i <= 12
    ensures f.op == TIMES ==>
              (RecordOf(f, time).operation == Multiplication && HasField(RecordOf(f, time), Table1, Str(i)) <==> f.a == i)
    ensures f.op == DIVIDE ==>
              (RecordOf(f, time).operation == Division && HasField(RecordOf(f, time), Table2, Str(i)) <==> f.b == i)
  {
    LabelNotNone(i);
    if 2 <= f.a <= 12 && Str(f.a) == Str(i) { StrInjective(f.a, i); }
    if 2 <= f.b <= 12 && Str(f.b) == Str(i) { StrInjective(f.b, i); }
  }

  /** `isTimesTable(op, a, b)` holds for a `×` or `÷` fact exactly when
      its record is counted in one of the rows of tables 2 to 12. */
  lemma TimesTableLabelled(f: Fact, time: int)
    ensures f.op == TIMES ==>
              (IsTimesTable(f.op, f.a, f.b) <==> exists i :: 2 <= i <= 12 && HasField(RecordOf(f, time), Table1, Str(i)))
    ensures f.op == DIVIDE ==>
              (IsTimesTable(f.op, f.a, f.b) <==> exists i :: 2 <= i <= 12 && HasField(RecordOf(f, time), Table2, Str(i)))
  {
    if f.op == TIMES || f.op == DIVIDE {
      var n := if f.op == TIMES then f.a else f.b;
      if 2 <= n <= 12 {
        TableRowMembership(f, time, n);
      }
      forall i | 2 <= i <= 12 && HasField(RecordOf(f, time), if f.op == TIMES then Table1 else Table2, Str(i))
        ensures IsTimesTable(f.op, f.a, f.b)
      {
        TableRowMembership(f, time, i);
      }
    }
  }

  /** The sorted rows are the eleven rows of tables 2 to 12, each once. */
  lemma TableRowsComplete(rows: seq<Row>, data: seq<SolvedRecord>, op: Operation, key: ExtraKey)
    requires multiset(rows) == multiset(TableRows(data, op, key))
    ensures forall i :: 2 <= i <= 12 ==> RowFor(data, op, key, i) in rows
    ensures forall r :: r in rows ==> 2 <= r.i <= 12 && r == RowFor(data, op, key, r.i)
  {
    var t := TableRows(data, op, key);
    forall i | 2 <= i <= 12 ensures RowFor(data, op, key, i) in rows {
      assert t[i - 2] in multiset(t);
    }
    forall r | r in rows ensures 2 <= r.i <= 12 && r == RowFor(data, op, key, r.i) {
      assert r in multiset(t);
      var k :| 0 <= k < 11 && t[k] == r;
    }
  }

  /** The record of an addition fact is averaged into the carry bucket
      exactly when the sum carries in some column, and into the no-carry
      bucket otherwise; likewise for subtraction and borrows. */
  lemma FlagBucketOfRecord(f: Fact, time: int, data: seq<SolvedRecord>)
    requires RecordOf(f, time) in data
    ensures f.op == '+' ==>
              && (RecordOf(f, time) in Matching(data, Addition, Carry, "True") <==> HasCarry(f.a, f.b))
              && (RecordOf(f, time) in Matching(data, Addition, Carry, "False") <==> !HasCarry(f.a, f.b))
    ensures f.op == '-' ==>
              && (RecordOf(f, time) in Matching(data, Subtraction, Borrow, "True") <==> HasBorrow(f.a, f.b))
              && (RecordOf(f, time) in Matching(data, Subtraction, Borrow, "False") <==> !HasBorrow(f.a, f.b))
  {
  }
}
