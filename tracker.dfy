/** The session recorder and the game-end detector of content.js. Each time
    the problem text changes, the previous problem is parsed, classified and
    appended to `solvedQuestions` with the time spent on it; a poll watches
    the timer and the problem element and raises `gameEnded` once. Clock
    readings are integer milliseconds passed in by the caller. */
module Tracker {
  import opened Wrappers
  import opened JsText
  import opened ContentParser
  import opened Classifier

  /** The `operation` strings a record can hold: `"Addition"`,
      `"Subtraction"`, `"Multiplication"`, `"Division"`, or the initial `""`. */
  datatype Operation = Addition | Subtraction | Multiplication | Division | Unnamed

  /** The name of the one extra property: `carry`, `borrow`, `table1`,
      `table2`, or the empty name `""` when the operator is none of the four. */
  datatype ExtraKey = Carry | Borrow | Table1 | Table2 | NoKey

  /** One entry of `solvedQuestions`: `{ a, b, operation, time, [key]: value }`.
      The one extra property is kept as a key and its string value. */
  datatype SolvedRecord = SolvedRecord(a: int, b: int, operation: Operation, time: int,
                                       extraKey: ExtraKey, extraValue: string)

  /** The extra value of a times-table fact: the table number, or `"None"`
      outside tables 2 to 12. */
  function TableLabel(n: int): (s: string)
    ensures s != "None" <==> 2 <= n <= 12
    ensures 2 <= n <= 12 ==> ParseInt(s) == Some(n)
  {
    if 2 <= n <= 12 then
      ParseIntOfStr(n);
      assert IsDigit(Str(n)[0]);
      Str(n)
    else "None"
  }

  /** The flag string the ternary `? "True" : "False"` stores for a carry
      or borrow test. */
  function FlagLabel(flag: bool): (s: string)
    ensures s == "True" || s == "False"
    ensures s == "True" <==> flag
  {
    if flag then "True" else "False"
  }

  /** The shape every record of `formatAndLogQuestion` has: the operation
      name decides the one extra property and the strings it can hold. */
  predicate WellFormed(r: SolvedRecord) {
    || (r.operation == Addition && r.extraKey == Carry && (r.extraValue == "True" || r.extraValue == "False"))
    || (r.operation == Subtraction && r.extraKey == Borrow && (r.extraValue == "True" || r.extraValue == "False"))
    || (r.operation == Multiplication && r.extraKey == Table1)
    || (r.operation == Division && r.extraKey == Table2)
  }

  predicate AllWellFormed(log: seq<SolvedRecord>) {
    forall i :: 0 <= i < |log| ==> WellFormed(log[i])
  }

  /** The record `formatAndLogQuestion` builds for a parsed fact. An operator
      outside the four leaves the name, key and value empty, as the source's
      initial `""` strings do. */
  function RecordOf(f: Fact, time: int): (r: SolvedRecord)
    ensures r.a == f.a && r.b == f.b && r.time == time
    ensures IsCanonicalOp(f.op) <==> WellFormed(r)
    ensures f.op == '+' ==> r.operation == Addition && (r.extraValue == "True" <==> HasCarry(f.a, f.b))
    ensures f.op == '-' ==> r.operation == Subtraction && (r.extraValue == "True" <==> HasBorrow(f.a, f.b))
    ensures f.op == TIMES ==> r.operation == Multiplication
                              && (r.extraValue != "None" <==> IsTimesTable(f.op, f.a, f.b))
                              && (IsTimesTable(f.op, f.a, f.b) ==> ParseInt(r.extraValue) == Some(f.a))
    ensures f.op == DIVIDE ==> r.operation == Division
                               && (r.extraValue != "None" <==> IsTimesTable(f.op, f.a, f.b))
                               && (IsTimesTable(f.op, f.a, f.b) ==> ParseInt(r.extraValue) == Some(f.b))
  {
    if f.op == '+' then
      SolvedRecord(f.a, f.b, Addition, time, Carry, FlagLabel(HasCarry(f.a, f.b)))
    else if f.op == '-' then
      SolvedRecord(f.a, f.b, Subtraction, time, Borrow, FlagLabel(HasBorrow(f.a, f.b)))
    else if f.op == TIMES then
      SolvedRecord(f.a, f.b, Multiplication, time, Table1, TableLabel(f.a))
    else if f.op == DIVIDE then
      SolvedRecord(f.a, f.b, Division, time, Table2, TableLabel(f.b))
    else
      SolvedRecord(f.a, f.b, Unnamed, time, NoKey, "")
  }

  /** What `formatAndLogQuestion` appends for a problem text: one record, or
      nothing when the text does not parse. */
  function Logged(questionText: string, elapsed: int): (log: seq<SolvedRecord>)
    ensures |log| <= 1
    ensures log == [] <==> ParseQuestion(questionText).None?
    ensures AllWellFormed(log)
    ensures forall i :: 0 <= i < |log| ==> log[i].time == elapsed
    ensures ParseQuestion(questionText).Some? ==>
              log[0].a == ParseQuestion(questionText).value.a && log[0].b == ParseQuestion(questionText).value.b
  {
    LogOf(ParseQuestion(questionText), elapsed)
  }

  /** The records logged for the result of a parse. */
  function LogOf(parsed: Option<Fact>, elapsed: int): (log: seq<SolvedRecord>)
    requires parsed.Some? ==> IsCanonicalOp(parsed.value.op)
    ensures |log| <= 1
    ensures log == [] <==> parsed.None?
    ensures AllWellFormed(log)
    ensures forall i :: 0 <= i < |log| ==> log[i].time == elapsed
    ensures parsed.Some? ==> log[0].a == parsed.value.a && log[0].b == parsed.value.b
  {
    match parsed
    case None => []
    case Some(f) => [RecordOf(f, elapsed)]
  }

  lemma AllWellFormedAppend(log: seq<SolvedRecord>, more: seq<SolvedRecord>)
    requires AllWellFormed(log) && AllWellFormed(more)
    ensures AllWellFormed(log + more)
  {
  }

  lemma LoggedParsed(questionText: string, elapsed: int)
    ensures ParseQuestion(questionText).None? ==> Logged(questionText, elapsed) == []
    ensures ParseQuestion(questionText).Some? ==>
              Logged(questionText, elapsed) == [RecordOf(ParseQuestion(questionText).value, elapsed)]
  {
  }

  /** `performance.now() - lastTimestamp`, in milliseconds. */
  function ElapsedMs(now: int, since: int): int {
    now - since
  }

  /** What the mutation callback logs before it moves on: the previous
      question with the time since it appeared, when a question and a
      truthy (non-zero) timestamp are set. */
  function Pending(lastQuestion: Option<string>, lastTimestamp: Option<int>, now: int): (log: seq<SolvedRecord>)
    ensures lastQuestion.None? || lastTimestamp.None? || lastTimestamp.value == 0 ==> log == []
  {
    if lastQuestion.Some? && lastTimestamp.Some? && lastTimestamp.value != 0
    then Logged(lastQuestion.value, ElapsedMs(now, lastTimestamp.value))
    else []
  }

  const SECONDS_LEFT: string := "Seconds left:"

  /** `/-?\d+/` matches at the start of `t`: a digit, or a minus sign
      and a digit. */
  predicate SignedDigitsAt(t: string) {
    (t != [] && IsDigit(t[0])) || (|t| > 1 && t[0] == '-' && IsDigit(t[1]))
  }

  /** The capture group of `/-?\d+/` at the start of `t`, read by `parseInt`. */
  function NumberAt(t: string): (r: Option<int>)
    ensures r.Some? <==> SignedDigitsAt(t)
    ensures r.Some? ==> r == ParseInt(t)
  {
    if t != [] && IsDigit(t[0]) then
      TrimStartOfSignedDigits(t);
      Some(DigitsValue(LeadingDigits(t)) as int)
    else if |t| > 1 && t[0] == '-' && IsDigit(t[1]) then
      TrimStartOfSignedDigits(t);
      Some(-(DigitsValue(LeadingDigits(t[1..])) as int))
    else None
  }

  /** The regular expression `/Seconds left:\s*(-?\d+)/` matches at the
      start of `rest`: the label, then white space, then a number. */
  predicate MatchesFrom(rest: string) {
    |SECONDS_LEFT| <= |rest| && rest[..|SECONDS_LEFT|] == SECONDS_LEFT
    && SignedDigitsAt(TrimStart(rest[|SECONDS_LEFT|..]))
  }

  /** The expression matches at position `i` of `text`. */
  predicate MatchAt(text: string, i: nat) {
    i <= |text| && MatchesFrom(text[i..])
  }

  /** `text.match(/Seconds left:\s*(-?\d+)/)` read with `parseInt`, trying
      positions from the left. `None` is "no match", which the caller reads
      as an infinite number of seconds. */
  function SecondsLeft(text: string): Option<int>
    decreases |text|
  {
    if |text| < |SECONDS_LEFT| then None
    else if MatchesFrom(text) then NumberAt(TrimStart(text[|SECONDS_LEFT|..]))
    else SecondsLeft(text[1..])
  }

  /** `secondsLeft <= 0`, where `secondsLeft` starts as `Infinity` and is
      replaced by the timer's number when the timer element exists and its
      text matches. */
  predicate TimerExpired(timerText: Option<string>) {
    var secondsLeft := if timerText.Some? then SecondsLeft(timerText.value) else None;
    secondsLeft.Some? && secondsLeft.value <= 0
  }

  /** `!questionEl || !questionEl.textContent.trim()` */
  predicate QuestionGone(problemText: Option<string>) {
    problemText.None? || Trim(problemText.value) == []
  }

  /** The end condition of `startObservingGameEnd`: not ended yet, a
      question has been seen, and either the timer reads 0 or less or the
      problem element is missing or blank. */
  predicate GameOver(gameEnded: bool, lastQuestion: Option<string>,
                     timerText: Option<string>, problemText: Option<string>)
  {
    !gameEnded && lastQuestion.Some? && (TimerExpired(timerText) || QuestionGone(problemText))
  }

  /** The classification step of `formatAndLogQuestion`: the operation
      name, and the carry or borrow flag from `needsCarryBorrow` or the
      times-table label, for a parsed fact. */
  method ClassifyFact(f: Fact, elapsed: int) returns (record: SolvedRecord)
    requires IsCanonicalOp(f.op)
    ensures record == RecordOf(f, elapsed) && WellFormed(record)
  {
    if f.op == '+' {
      var carry := NeedsCarryBorrow(f.op, f.a, f.b);
      record := SolvedRecord(f.a, f.b, Addition, elapsed, Carry, if carry then "True" else "False");
    } else if f.op == '-' {
      var borrow := NeedsCarryBorrow(f.op, f.a, f.b);
      record := SolvedRecord(f.a, f.b, Subtraction, elapsed, Borrow, if borrow then "True" else "False");
    } else if f.op == TIMES {
      record := SolvedRecord(f.a, f.b, Multiplication, elapsed, Table1, TableLabel(f.a));
    } else {
      record := SolvedRecord(f.a, f.b, Division, elapsed, Table2, TableLabel(f.b));
    }
  }

  /** The record `formatAndLogQuestion` appends for a problem text, or
      nothing when it does not parse. */
  method LogFor(questionText: string, elapsed: int) returns (log: seq<SolvedRecord>)
    ensures log == Logged(questionText, elapsed)
  {
    var parsed := ParseQuestion(questionText);
    LoggedParsed(questionText, elapsed);
    if parsed.None? {
      return [];
    }
    var record := ClassifyFact(parsed.value, elapsed);
    return [record];
  }

  /** The recorder's state: the module-level variables of content.js. */
  class Tracker {
    var lastQuestion: Option<string>
    var lastTimestamp: Option<int>
    var gameEnded: bool
    var solvedQuestions: seq<SolvedRecord>

    /** The question and its timestamp are set together, the question is a
        non-empty trimmed text, the game can only have ended after a
        question was seen, and every record has the one-extra-field shape. */
    ghost predicate Valid()
      reads this
    {
      && (lastQuestion.Some? <==> lastTimestamp.Some?)
      && (lastQuestion.Some? ==> lastQuestion.value != [])
      && (gameEnded ==> lastQuestion.Some?)
      && AllWellFormed(solvedQuestions)
    }

    constructor ()
      ensures Valid()
      ensures lastQuestion == None && lastTimestamp == None && !gameEnded && solvedQuestions == []
    {
      lastQuestion := None;
      lastTimestamp := None;
      gameEnded := false;
      solvedQuestions := [];
    }

    /** `formatAndLogQuestion`: parse the text, classify the fact and append
        one record; a text that does not parse appends nothing. */
    method FormatAndLogQuestion(questionText: string, elapsed: int)
      requires Valid()
      modifies this`solvedQuestions
      ensures Valid()
      ensures solvedQuestions == old(solvedQuestions) + Logged(questionText, elapsed)
    {
      var log := LogFor(questionText, elapsed);
      AllWellFormedAppend(solvedQuestions, log);
      solvedQuestions := solvedQuestions + log;
    }

    /** The set-up of `startObservingQuestions`: the first non-blank problem
        text becomes the current question, timed from `now`. */
    method Attach(initialText: string, now: int)
      requires Valid()
      modifies this`lastQuestion, this`lastTimestamp
      ensures Valid()
      ensures if Trim(initialText) != [] && old(lastQuestion).None?
              then lastQuestion == Some(Trim(initialText)) && lastTimestamp == Some(now)
              else lastQuestion == old(lastQuestion) && lastTimestamp == old(lastTimestamp)
    {
      var initial := Trim(initialText);
      if initial != [] && lastQuestion.None? {
        lastQuestion := Some(initial);
        lastTimestamp := Some(now);
      }
    }

    /** The mutation callback: a blank text or the current question changes
        nothing; any other text logs the previous question with the time
        since it appeared (when a question and a non-zero timestamp are
        set) and becomes the current question, whether or not the previous
        one parsed. */
    method OnQuestionMutation(text: string, now: int)
      requires Valid()
      modifies this`lastQuestion, this`lastTimestamp, this`solvedQuestions
      ensures Valid()
      ensures Trim(text) == [] || old(lastQuestion) == Some(Trim(text)) ==>
                lastQuestion == old(lastQuestion) && lastTimestamp == old(lastTimestamp)
                && solvedQuestions == old(solvedQuestions)
      ensures Trim(text) != [] && old(lastQuestion) != Some(Trim(text)) ==>
                && lastQuestion == Some(Trim(text)) && lastTimestamp == Some(now)
                && solvedQuestions == old(solvedQuestions) + Pending(old(lastQuestion), old(lastTimestamp), now)
    {
      var newQ := Trim(text);
      if newQ != [] && Some(newQ) != lastQuestion {
        LogPrevious(now);
        lastQuestion := Some(newQ);
        lastTimestamp := Some(now);
      }
    }

    /** The logging step of the mutation callback, `if (lastQuestion &&
        lastTimestamp) formatAndLogQuestion(...)`. */
    method LogPrevious(now: int)
      requires Valid()
      modifies this`solvedQuestions
      ensures Valid()
      ensures solvedQuestions == old(solvedQuestions) + Pending(lastQuestion, lastTimestamp, now)
    {
      if lastQuestion.Some? && lastTimestamp.Some? && lastTimestamp.value != 0 {
        FormatAndLogQuestion(lastQuestion.value, ElapsedMs(now, lastTimestamp.value));
      }
    }

    /** One poll of `startObservingGameEnd`. When the end condition holds the
        flag is raised and polling stops; otherwise it is scheduled again. */
    method PollGameEnd(timerText: Option<string>, problemText: Option<string>) returns (stopped: bool)
      requires Valid()
      modifies this`gameEnded
      ensures Valid()
      ensures stopped == GameOver(old(gameEnded), lastQuestion, timerText, problemText)
      ensures gameEnded == (old(gameEnded) || stopped)
      ensures old(gameEnded) ==> !stopped
    {
      var timerExpired := TimerExpired(timerText);
      var questionGone := QuestionGone(problemText);
      stopped := !gameEnded && lastQuestion.Some? && (timerExpired || questionGone);
      if stopped {
        gameEnded := true;
      }
    }
  }

  /* ---------------- Lemmas ---------------- */

  lemma MatchAtShift(text: string, i: nat)
    requires 0 < i && text != []
    ensures MatchAt(text, i) == MatchAt(text[1..], i - 1)
  {
    if i <= |text| {
      assert text[1..][i - 1..] == text[i..];
    }
  }

  /** `SecondsLeft` is the number of the leftmost match, and `None` exactly
      when the expression matches nowhere. */
  lemma {:induction false} SecondsLeftLeftmost(text: string)
    ensures SecondsLeft(text).None? <==> forall i: nat :: i <= |text| ==> !MatchAt(text, i)
    ensures SecondsLeft(text).Some? ==>
              exists i: nat :: i <= |text| && MatchAt(text, i)
                && SecondsLeft(text) == NumberAt(TrimStart(text[i..][|SECONDS_LEFT|..]))
                && forall j: nat :: j < i ==> !MatchAt(text, j)
    decreases |text|
  {
    if |text| < |SECONDS_LEFT| {
      forall i: nat | i <= |text| ensures !MatchAt(text, i) {
        assert |text[i..]| < |SECONDS_LEFT|;
      }
    } else if MatchesFrom(text) {
      assert text[0..] == text;
      assert MatchAt(text, 0);
    } else {
      assert text[0..] == text;
      assert !MatchAt(text, 0);
      SecondsLeftLeftmost(text[1..]);
      if SecondsLeft(text[1..]).Some? {
        var i: nat :| i <= |text[1..]| && MatchAt(text[1..], i)
                      && SecondsLeft(text[1..]) == NumberAt(TrimStart(text[1..][i..][|SECONDS_LEFT|..]))
                      && forall j: nat :: j < i ==> !MatchAt(text[1..], j);
        FirstMatchShift(text, i);
      } else {
        NoMatchShift(text);
      }
    }
  }

  lemma FirstMatchShift(text: string, i: nat)
    requires text != [] && !MatchAt(text, 0)
    requires MatchAt(text[1..], i) && forall j: nat :: j < i ==> !MatchAt(text[1..], j)
    ensures MatchAt(text, i + 1) && text[1..][i..] == text[i + 1..]
    ensures forall j: nat :: j < i + 1 ==> !MatchAt(text, j)
  {
    MatchAtShift(text, i + 1);
    forall j: nat | j < i + 1 ensures !MatchAt(text, j) {
      if j > 0 {
        MatchAtShift(text, j);
      }
    }
  }

  lemma NoMatchShift(text: string)
    requires text != [] && !MatchAt(text, 0)
    requires forall j: nat :: j <= |text[1..]| ==> !MatchAt(text[1..], j)
    ensures forall j: nat :: j <= |text| ==> !MatchAt(text, j)
  {
    forall j: nat | j <= |text| ensures !MatchAt(text, j) {
      if j > 0 { MatchAtShift(text, j); }
    }
  }

  lemma NumberAtOfStr(n: int)
    ensures NumberAt(Str(n)) == Some(n)
  {
    var m: nat := if n < 0 then -n else n;
    var d := NatStr(m);
    assert IsDigit(d[0]);
    if n < 0 {
      assert Str(n)[0] == '-' && Str(n)[1] == d[0];
    } else {
      assert Str(n)[0] == d[0];
    }
    assert SignedDigitsAt(Str(n));
    ParseIntOfStr(n);
  }

  /** The timer text the drill page shows, `"Seconds left: N"`, reads as N. */
  lemma SecondsLeftShown(n: int)
    ensures SecondsLeft(SECONDS_LEFT + " " + Str(n)) == Some(n)
  {
    var text := SECONDS_LEFT + " " + Str(n);
    assert text[..|SECONDS_LEFT|] == SECONDS_LEFT;
    assert text[|SECONDS_LEFT|..] == " " + Str(n);
    assert IsDigit(NatStr(if n < 0 then -n else n)[0]);
    TrimStartPadded(" ", Str(n));
    NumberAtOfStr(n);
  }

  /** The game ends when the timer reaches 0, not while it reads 1; a blank
      problem ends it whatever the timer says; nothing ends a game before
      the first question or a second time. */
  lemma GameOverCases(q: string, problem: string)
    requires Trim(problem) != []
    ensures GameOver(false, Some(q), Some(SECONDS_LEFT + " " + Str(0)), Some(problem))
    ensures !GameOver(false, Some(q), Some(SECONDS_LEFT + " " + Str(1)), Some(problem))
    ensures GameOver(false, Some(q), None, Some(""))
    ensures forall t, p :: !GameOver(false, None, t, p) && !GameOver(true, Some(q), t, p)
  {
    SecondsLeftShown(0);
    SecondsLeftShown(1);
  }

  /** The record of a `+` fact says "True" exactly when some digit column
      of the two non-negative operands sums to ten or more. */
  lemma AdditionRecordDigitwise(a: nat, b: nat, time: int)
    ensures RecordOf(Fact(a, b, '+'), time).extraValue == "True"
            <==> exists k: nat :: Digit(a, k) + Digit(b, k) >= 10
  {
    CarryDigitwise(a, b);
  }

  /** The record of a `-` fact says "True" exactly when some digit column
      of `a` is smaller than that of `b`. */
  lemma SubtractionRecordDigitwise(a: nat, b: nat, time: int)
    ensures RecordOf(Fact(a, b, '-'), time).extraValue == "True"
            <==> exists k: nat :: Digit(a, k) < Digit(b, k)
  {
    BorrowDigitwise(a, b);
  }

  /** A short session: a problem `q1` is shown at `t0`, a re-render of the
      same text with white space around it at `t1` is ignored, and the next
      problem `q2` at `t2` logs `q1` with the time between its appearance
      and the next problem. */
  method RecorderSession(q1: string, q2: string, t0: int, t1: int, t2: int)
    returns (log: seq<SolvedRecord>)
    requires q1 != [] && !IsWhitespace(q1[0]) && !IsWhitespace(q1[|q1| - 1])
    requires q2 != [] && !IsWhitespace(q2[0]) && !IsWhitespace(q2[|q2| - 1])
    requires q1 != q2 && t0 != 0
    ensures log == Logged(q1, ElapsedMs(t2, t0))
  {
    TrimPadded("", q1, "");
    assert "" + q1 + "" == q1;
    TrimPadded(" ", q1, " ");
    TrimPadded("", q2, "");
    assert "" + q2 + "" == q2;
    var t := new Tracker();
    t.Attach(q1, t0);
    t.OnQuestionMutation(" " + q1 + " ", t1);
    t.OnQuestionMutation(q2, t2);
    log := t.solvedQuestions;
  }

  /** A displayed problem is logged with its operands and normalised
      operator. */
  lemma LoggedDisplayed(x: nat, g: char, y: nat, elapsed: int)
    requires g in OPERATOR_GLYPHS
    ensures Logged(Display(x, g, y), elapsed) == [RecordOf(Fact(x, y, Normalize(g)), elapsed)]
  {
    ParseDisplayed(x, g, y);
    LoggedParsed(Display(x, g, y), elapsed);
  }

  /** A displayed `+` problem is logged as one `Addition` record whose
      carry flag is the carry test on its operands. */
  lemma LoggedAddition(x: nat, y: nat, elapsed: int)
    ensures Logged(Display(x, '+', y), elapsed)
            == [SolvedRecord(x, y, Addition, elapsed, Carry, if HasCarry(x, y) then "True" else "False")]
  {
    LoggedDisplayed(x, '+', y, elapsed);
    assert Normalize('+') == '+';
  }
}
