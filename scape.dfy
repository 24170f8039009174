/** scape.js, the earlier scraper: its own `parseQuestion`, which takes the
    leftmost operator character and neither normalises the operator nor
    rejects operands that are not numbers, and an observer that records
    every new problem text together with the time since the previous one. */
module Scape {
  import opened Wrappers
  import opened JsText
  import opened ContentParser

  /** The regular-expression character class of the six operator
      characters: plus, hyphen-minus, times, divide, asterisk, slash. */
  predicate IsScapeOp(c: char) {
    c == '+' || c == '-' || c == TIMES || c == DIVIDE || c == '*' || c == '/'
  }

  /** The index of the regular-expression match: the position of the
      leftmost operator character. */
  function LeftmostOp(text: string): (r: Option<nat>)
    ensures r.None? <==> forall i :: 0 <= i < |text| ==> !IsScapeOp(text[i])
    ensures r.Some? ==> r.value < |text| && IsScapeOp(text[r.value])
                        && forall i :: 0 <= i < r.value ==> !IsScapeOp(text[i])
  {
    if text == [] then None
    else if IsScapeOp(text[0]) then Some(0)
    else
      match LeftmostOp(text[1..])
      case None => None
      case Some(i) => Some(i + 1)
  }

  /** The lookup table from operator character to `opType`. */
  function OpType(op: char): (name: string)
    requires IsScapeOp(op)
    ensures name == "addition" || name == "subtraction" || name == "multiplication" || name == "division"
  {
    if op == '+' then "addition"
    else if op == '-' then "subtraction"
    else if op == TIMES || op == '*' then "multiplication"
    else "division"
  }

  /** `{ opType, a, b }`; either number may be `NaN` (`None`). */
  datatype ScapeFact = ScapeFact(opType: string, a: Option<int>, b: Option<int>)

  /** scape.js `parseQuestion(text)`: `None` is `null`. The text is split at
      every occurrence of the operator and the first two pieces, trimmed,
      are read with `parseInt`; nothing is dropped from the second. */
  function ScapeParse(text: string): (r: Option<ScapeFact>)
    ensures r.None? <==> forall i :: 0 <= i < |text| ==> !IsScapeOp(text[i])
    ensures r.Some? ==> LeftmostOp(text).Some? && r.value.opType == OpType(text[LeftmostOp(text).value])
  {
    match LeftmostOp(text)
    case None => None
    case Some(i) =>
      var op := text[i];
      var parts := Split(text, op);
      var left := Trim(parts[0]);
      var right := Trim(parts[1]);
      Some(ScapeFact(OpType(op), ParseInt(left), ParseInt(right)))
  }

  /** An entry of `questions`: `{ question, ...parsed, timeTakenMs }`. A
      text that does not parse spreads nothing, kept here as `None`. */
  datatype Entry = Entry(question: string, parsed: Option<ScapeFact>, timeTakenMs: int)

  /** The sum of the recorded times. */
  function TotalTaken(entries: seq<Entry>): int {
    if entries == [] then 0
    else TotalTaken(entries[..|entries| - 1]) + entries[|entries| - 1].timeTakenMs
  }

  /** `now - lastTime`, in milliseconds. */
  function TimeTaken(now: int, lastTime: int): int {
    now - lastTime
  }

  /** An entry holds a non-blank text and the parse of that text. */
  predicate EntryOk(e: Entry) {
    e.question != [] && e.parsed == ScapeParse(e.question)
  }

  predicate AllEntriesOk(entries: seq<Entry>) {
    forall i :: 0 <= i < |entries| ==> EntryOk(entries[i])
  }

  /** No entry repeats the text of the one before it. */
  predicate NoRepeats(entries: seq<Entry>) {
    forall i :: 0 < i < |entries| ==> entries[i].question != entries[i - 1].question
  }

  /** The observer's state: `lastText`, `lastTime` and the global
      `questions` array. */
  class ScapeObserver {
    var lastText: string
    var lastTime: int
    var questions: seq<Entry>
    ghost var attachTime: int
    ghost var initialText: string

    /** The recorded times add up to the time since the observer was
        attached, the last entry holds the current text, every entry holds
        a non-blank text and its parse, and no entry repeats the text
        before it. */
    ghost predicate Valid()
      reads this
    {
      && lastTime == attachTime + TotalTaken(questions)
      && (questions == [] ==> lastText == initialText)
      && (questions != [] ==> questions[|questions| - 1].question == lastText)
      && (questions != [] ==> questions[0].question != initialText)
      && AllEntriesOk(questions)
      && NoRepeats(questions)
    }

  /** The set-up: no entries, the trimmed initial text, the time of
        attachment. */
    constructor (initial: string, now: int)
      ensures Valid()
      ensures questions == [] && lastText == Trim(initial) && lastTime == now
    {
      lastText := Trim(initial);
      lastTime := now;
      questions := [];
      attachTime := now;
      initialText := Trim(initial);
    }

    /** The mutation callback: a blank text or the current text is ignored;
        any other text becomes the current text and is appended, with its
        parse (even a failed one) and the time since the previous change. */
    method OnMutation(rawText: string, now: int)
      requires Valid()
      modifies this`lastText, this`lastTime, this`questions
      ensures Valid()
      ensures Trim(rawText) == [] || Trim(rawText) == old(lastText) ==>
                lastText == old(lastText) && lastTime == old(lastTime) && questions == old(questions)
      ensures Trim(rawText) != [] && Trim(rawText) != old(lastText) ==>
                && lastText == Trim(rawText) && lastTime == now
                && questions == old(questions) + [Entry(Trim(rawText), ScapeParse(Trim(rawText)),
                                                        TimeTaken(now, old(lastTime)))]
    {
      var text := Trim(rawText);
      if text == [] || text == lastText {
        return;
      }
      Record(text, now);
    }

    /** The accepting branch of the callback, for a non-blank new text. */
    method Record(text: string, now: int)
      requires Valid() && text != [] && text != lastText
      modifies this`lastText, this`lastTime, this`questions
      ensures Valid()
      ensures lastText == text && lastTime == now
      ensures questions == old(questions) + [Entry(text, ScapeParse(text), TimeTaken(now, old(lastTime)))]
    {
      lastText := text;
      var timeTaken := TimeTaken(now, lastTime);
      lastTime := now;
      var parsed := ScapeParse(text);
      var entry := Entry(text, parsed, timeTaken);
      AppendEntry(questions, entry);
      questions := questions + [entry];
    }
  }

  /* ---------------- Lemmas ---------------- */

  /** Appending a parsed entry that differs from the last one keeps the
      entries parsed and free of repeats, and adds its time to the total. */
  lemma AppendEntry(entries: seq<Entry>, e: Entry)
    requires AllEntriesOk(entries) && NoRepeats(entries) && EntryOk(e)
    requires entries != [] ==> e.question != entries[|entries| - 1].question
    ensures AllEntriesOk(entries + [e]) && NoRepeats(entries + [e])
    ensures TotalTaken(entries + [e]) == TotalTaken(entries) + e.timeTakenMs
    ensures (entries + [e])[|entries|] == e
  {
    var longer := entries + [e];
    assert longer[..|entries|] == entries;
    forall i | 0 <= i < |longer| ensures EntryOk(longer[i]) {
      if i < |entries| {
        assert longer[i] == entries[i];
      }
    }
  }

  /** Every operator character is one of the glyphs of content.js. */
  lemma ScapeOpsAreGlyphs(c: char)
    requires IsScapeOp(c)
    ensures c in OPERATOR_GLYPHS
  {
    if c == '+' { assert OPERATOR_GLYPHS[0] == c; }
    else if c == '-' { assert OPERATOR_GLYPHS[3] == c; }
    else if c == TIMES { assert OPERATOR_GLYPHS[4] == c; }
    else if c == DIVIDE { assert OPERATOR_GLYPHS[5] == c; }
    else if c == '*' { assert OPERATOR_GLYPHS[6] == c; }
    else { assert OPERATOR_GLYPHS[7] == c; }
  }

  lemma LeftmostOpDisplayed(x: nat, g: char, y: nat)
    requires IsScapeOp(g)
    ensures LeftmostOp(Display(x, g, y)) == Some(|NatStr(x)| + 1)
    ensures Display(x, g, y)[|NatStr(x)| + 1] == g
  {
    var q := Display(x, g, y);
    var k := |NatStr(x)| + 1;
    assert q[k] == g;
    forall i | 0 <= i < k ensures !IsScapeOp(q[i]) {
      if i < |NatStr(x)| {
        assert q[i] == NatStr(x)[i];
        assert IsDigit(q[i]);
      } else {
        assert q[i] == ' ';
      }
    }
  }

  /** `parseQuestion` once the leftmost operator is known. */
  lemma ScapeParseAt(text: string, i: nat, parts: seq<string>)
    requires LeftmostOp(text) == Some(i)
    requires parts == Split(text, text[i])
    ensures |parts| >= 2
    ensures ScapeParse(text) == Some(ScapeFact(OpType(text[i]), ParseInt(Trim(parts[0])), ParseInt(Trim(parts[1]))))
  {
  }

  /** `a` is `parseInt` of the trimmed text before the leftmost operator
      character, `b` of the trimmed text after it up to the next occurrence
      of the same character (or the end); either may be `NaN`, and the
      `=` is not removed. */
  lemma ScapeParseSegments(text: string, i: nat)
    requires LeftmostOp(text) == Some(i)
    ensures var tail := text[i + 1..];
            var second := if text[i] in tail then tail[..IndexOf(tail, text[i])] else tail;
            ScapeParse(text) == Some(ScapeFact(OpType(text[i]), ParseInt(Trim(text[..i])), ParseInt(Trim(second))))
  {
    var c := text[i];
    IndexOfIsFirst(text, c, i);
    SplitHead(text, c);
    ScapeParseAt(text, i, Split(text, c));
  }

  lemma RightOperandParses(y: nat)
    ensures ParseInt(Trim(" " + NatStr(y) + " =")) == Some(y)
  {
    var d := NatStr(y);
    assert IsDigit(d[0]);
    TrimPadded(" ", d + " =", "");
    assert " " + (d + " =") + "" == " " + d + " =";
    DigitsValueOfNatStr(y);
    ParseIntOfDigitsThen(d, " =");
  }

  /** Round trip: a displayed problem with non-negative operands and any of
      the six operator characters parses back to its operands and the name
      of its operator. */
  lemma ScapeParseDisplayed(x: nat, g: char, y: nat)
    requires IsScapeOp(g)
    ensures ScapeParse(Display(x, g, y)) == Some(ScapeFact(OpType(g), Some(x), Some(y)))
  {
    var q := Display(x, g, y);
    var i := |NatStr(x)| + 1;
    LeftmostOpDisplayed(x, g, y);
    ScapeOpsAreGlyphs(g);
    SplitDisplayed(x, g, y);
    var parts := [NatStr(x) + " ", " " + NatStr(y) + " ="];
    ScapeParseAt(q, i, parts);
    LeftOperandText(x);
    ParseIntOfStr(x);
    RightOperandParses(y);
  }

  /** On a displayed problem with one of the six operator characters the
      two parsers read the same operands and the same operation. */
  lemma ParsersAgreeOnDisplay(x: nat, g: char, y: nat)
    requires IsScapeOp(g)
    ensures ParseQuestion(Display(x, g, y)) == Some(Fact(x, y, Normalize(g)))
    ensures ScapeParse(Display(x, g, y)) == Some(ScapeFact(OpType(g), Some(x), Some(y)))
    ensures OpType(g) == "addition" <==> Normalize(g) == '+'
    ensures OpType(g) == "subtraction" <==> Normalize(g) == '-'
    ensures OpType(g) == "multiplication" <==> Normalize(g) == TIMES
    ensures OpType(g) == "division" <==> Normalize(g) == DIVIDE
  {
    ScapeOpsAreGlyphs(g);
    ParseDisplayed(x, g, y);
    ScapeParseDisplayed(x, g, y);
  }

  /** The minus sign U+2212 is an operator for content.js but not for
      scape.js, which finds no operator in such a problem. */
  lemma MinusSignOnlyContent(x: nat, y: nat)
    ensures ParseQuestion(Display(x, MINUS_SIGN, y)) == Some(Fact(x, y, '-'))
    ensures ScapeParse(Display(x, MINUS_SIGN, y)).None?
  {
    assert OPERATOR_GLYPHS[1] == MINUS_SIGN;
    ParseDisplayed(x, MINUS_SIGN, y);
    NoScapeOpWithMinusSign(x, y);
  }

  lemma NoScapeOpWithMinusSign(x: nat, y: nat)
    ensures forall i :: 0 <= i < |Display(x, MINUS_SIGN, y)| ==> !IsScapeOp(Display(x, MINUS_SIGN, y)[i])
  {
    var q := Display(x, MINUS_SIGN, y);
    DisplayCharacters(x, MINUS_SIGN, y);
    forall i | 0 <= i < |q| ensures !IsScapeOp(q[i]) {
      assert q[i] in q;
    }
  }
}
