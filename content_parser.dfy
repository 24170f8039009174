/** The problem parser of content.js (`parseQuestion`): it finds the operator
    glyph, splits the problem text around it, reads the two operands with
    `parseInt` and normalises the operator to one of `+`, `-`, `×`, `÷`. */
module ContentParser {
  import opened Wrappers
  import opened JsText

  const MINUS_SIGN: char := '\U{2212}'
  const EN_DASH: char := '\U{2013}'
  const TIMES: char := '\U{D7}'
  const DIVIDE: char := '\U{F7}'

  /** The operator glyphs, in the order in which they are tried. */
  const OPERATOR_GLYPHS: seq<char> := ['+', MINUS_SIGN, EN_DASH, '-', TIMES, DIVIDE, '*', '/']

  /** The four operators a parsed fact can carry. */
  predicate IsCanonicalOp(op: char) {
    op == '+' || op == '-' || op == TIMES || op == DIVIDE
  }

  /** A parsed problem `{ a, b, op }`. */
  datatype Fact = Fact(a: int, b: int, op: char)

  /** `glyphs.find(g => q.includes(g))`: the first glyph, in list order, that
      occurs anywhere in `q`. */
  function FirstContained(glyphs: seq<char>, q: string): (r: Option<char>)
    ensures r.None? <==> forall k :: 0 <= k < |glyphs| ==> glyphs[k] !in q
    ensures r.Some? ==> exists k :: 0 <= k < |glyphs| && glyphs[k] == r.value && r.value in q
                                    && forall j :: 0 <= j < k ==> glyphs[j] !in q
  {
    if glyphs == [] then None
    else if glyphs[0] in q then Some(glyphs[0])
    else
      var r := FirstContained(glyphs[1..], q);
      assert r.Some? ==> exists k :: 1 <= k < |glyphs| && glyphs[k] == r.value && r.value in q
                                     && forall j :: 0 <= j < k ==> glyphs[j] !in q by {
        if r.Some? {
          var k' :| 0 <= k' < |glyphs| - 1 && glyphs[1..][k'] == r.value && r.value in q
                    && forall j :: 0 <= j < k' ==> glyphs[1..][j] !in q;
          assert forall j :: 0 <= j < k' + 1 ==> glyphs[j] !in q by {
            forall j | 0 <= j < k' + 1 ensures glyphs[j] !in q {
              if j > 0 { assert glyphs[j] == glyphs[1..][j - 1]; }
            }
          }
        }
      }
      r
  }

  function FindOperator(q: string): Option<char> {
    FirstContained(OPERATOR_GLYPHS, q)
  }

  /** `*` becomes `×`, `/` becomes `÷`, and the three minus glyphs become `-`. */
  function Normalize(g: char): (op: char)
    ensures g in OPERATOR_GLYPHS ==> IsCanonicalOp(op)
    ensures IsCanonicalOp(g) ==> op == g
  {
    if g == '*' then TIMES
    else if g == '/' then DIVIDE
    else if g == MINUS_SIGN || g == EN_DASH || g == '-' then '-'
    else g
  }

  /** `parseQuestion(q)`: `None` is the source's `null`. */
  function ParseQuestion(q: string): (r: Option<Fact>)
    ensures FindOperator(q).None? ==> r.None?
    ensures r.Some? ==> FindOperator(q).Some? && r.value.op == Normalize(FindOperator(q).value)
    ensures r.Some? ==> IsCanonicalOp(r.value.op)
  {
    match FindOperator(q)
    case None => None
    case Some(g) =>
      var parts := Split(q, g);
      if |parts| < 2 then None
      else
        var a := ParseInt(Trim(parts[0]));
        var b := ParseInt(Trim(RemoveFirst(parts[1], '=')));
        if a.None? || b.None? then None
        else Some(Fact(a.value, b.value, Normalize(g)))
  }

  /* ---------------- Lemmas ---------------- */

  /** The operator is the first glyph of the list that the text contains,
      wherever in the text it stands; no glyph at all means no operator. */
  lemma FindOperatorInListOrder(q: string, k: nat)
    requires k < |OPERATOR_GLYPHS| && OPERATOR_GLYPHS[k] in q
    requires forall j :: 0 <= j < k ==> OPERATOR_GLYPHS[j] !in q
    ensures FindOperator(q) == Some(OPERATOR_GLYPHS[k])
  {
    var r := FindOperator(q);
    var k' :| 0 <= k' < |OPERATOR_GLYPHS| && OPERATOR_GLYPHS[k'] == r.value && r.value in q
              && forall j :: 0 <= j < k' ==> OPERATOR_GLYPHS[j] !in q;
    assert k' == k;
  }

  /** Only the text before the first operator and the text between the first
      and the second operator are read, and the first `=` of the second is
      dropped; the result is `null` exactly when either has no leading
      integer under `parseInt`. */
  lemma ParseQuestionSegments(q: string, g: char)
    requires FindOperator(q) == Some(g)
    ensures var i := IndexOf(q, g);
            var tail := q[i + 1..];
            var second := if g in tail then tail[..IndexOf(tail, g)] else tail;
            var a := ParseInt(Trim(q[..i]));
            var b := ParseInt(Trim(RemoveFirst(second, '=')));
            ParseQuestion(q) == if a.None? || b.None? then None else Some(Fact(a.value, b.value, Normalize(g)))
  {
    SplitHead(q, g);
    ParseQuestionOfParts(q, g, Split(q, g));
  }

  /** `parseQuestion` once the operator and the pieces are known. */
  lemma ParseQuestionOfParts(q: string, g: char, parts: seq<string>)
    requires FindOperator(q) == Some(g)
    requires parts == Split(q, g) && |parts| >= 2
    ensures var a := ParseInt(Trim(parts[0]));
            var b := ParseInt(Trim(RemoveFirst(parts[1], '=')));
            ParseQuestion(q) == if a.None? || b.None? then None else Some(Fact(a.value, b.value, Normalize(g)))
  {
  }

  /** The problem as the drill page shows it, `"A op B ="`. */
  function Display(x: nat, g: char, y: nat): string {
    NatStr(x) + " " + [g] + " " + NatStr(y) + " ="
  }

  lemma DisplayCharacters(x: nat, g: char, y: nat)
    ensures forall c :: c in Display(x, g, y) ==> IsDigit(c) || c == ' ' || c == '=' || c == g
  {
    forall c | c in Display(x, g, y) ensures IsDigit(c) || c == ' ' || c == '=' || c == g {
      if c in NatStr(x) {
        var i :| 0 <= i < |NatStr(x)| && NatStr(x)[i] == c;
      } else if c in NatStr(y) {
        var i :| 0 <= i < |NatStr(y)| && NatStr(y)[i] == c;
      }
    }
  }

  lemma GlyphsDistinct()
    ensures forall i, j :: 0 <= i < j < |OPERATOR_GLYPHS| ==> OPERATOR_GLYPHS[i] != OPERATOR_GLYPHS[j]
    ensures forall i :: 0 <= i < |OPERATOR_GLYPHS| ==>
              !IsDigit(OPERATOR_GLYPHS[i]) && OPERATOR_GLYPHS[i] != ' ' && OPERATOR_GLYPHS[i] != '='
  {
  }

  lemma FindOperatorDisplayed(x: nat, g: char, y: nat)
    requires g in OPERATOR_GLYPHS
    ensures FindOperator(Display(x, g, y)) == Some(g)
  {
    var q := Display(x, g, y);
    DisplayCharacters(x, g, y);
    GlyphsDistinct();
    var k :| 0 <= k < |OPERATOR_GLYPHS| && OPERATOR_GLYPHS[k] == g;
    assert q[|NatStr(x)| + 1] == g;
    forall j | 0 <= j < k ensures OPERATOR_GLYPHS[j] !in q {
      var h := OPERATOR_GLYPHS[j];
      assert h != g && !IsDigit(h) && h != ' ' && h != '=';
    }
    FindOperatorInListOrder(q, k);
  }

  lemma SplitDisplayed(x: nat, g: char, y: nat)
    requires g in OPERATOR_GLYPHS
    ensures Split(Display(x, g, y), g) == [NatStr(x) + " ", " " + NatStr(y) + " ="]
  {
    var left := NatStr(x) + " ";
    var right := " " + NatStr(y) + " =";
    GlyphIsSymbol(g);
    assert Display(x, g, y) == left + [g] + right;
    assert g !in left by {
      assert forall i :: 0 <= i < |left| ==> IsDigit(left[i]) || left[i] == ' ';
    }
    assert g !in right by {
      assert forall i :: 0 <= i < |right| ==> IsDigit(right[i]) || right[i] == ' ' || right[i] == '=';
    }
    SplitFirst(left, g, right);
    assert Split(right, g) == [right];
  }

  lemma GlyphIsSymbol(g: char)
    requires g in OPERATOR_GLYPHS
    ensures !IsDigit(g) && g != ' ' && g != '='
  {
    GlyphsDistinct();
    var j :| 0 <= j < |OPERATOR_GLYPHS| && OPERATOR_GLYPHS[j] == g;
  }

  lemma DigitsNotWhitespace(d: string)
    requires d != [] && AllDigits(d)
    ensures !IsWhitespace(d[0]) && !IsWhitespace(d[|d| - 1])
  {
    assert IsDigit(d[0]) && IsDigit(d[|d| - 1]);
  }

  lemma LeftOperandText(x: nat)
    ensures Trim(NatStr(x) + " ") == NatStr(x)
  {
    DigitsNotWhitespace(NatStr(x));
    TrimPadded("", NatStr(x), " ");
    assert "" + NatStr(x) + " " == NatStr(x) + " ";
  }

  lemma RightOperandText(y: nat)
    ensures Trim(RemoveFirst(" " + NatStr(y) + " =", '=')) == NatStr(y)
  {
    var right := " " + NatStr(y) + " =";
    var front := " " + NatStr(y) + " ";
    assert forall i :: 0 <= i < |front| ==> IsDigit(front[i]) || front[i] == ' ';
    IndexOfFirst(front, '=', "");
    assert right == front + ['='] + "";
    assert right[..|front|] == front;
    assert RemoveFirst(right, '=') == front;
    DigitsNotWhitespace(NatStr(y));
    TrimPadded(" ", NatStr(y), " ");
  }

  /** Round trip: a displayed problem with non-negative operands and any of
      the eight glyphs parses back to its operands and normalised operator. */
  lemma ParseDisplayed(x: nat, g: char, y: nat)
    requires g in OPERATOR_GLYPHS
    ensures ParseQuestion(Display(x, g, y)) == Some(Fact(x, y, Normalize(g)))
  {
    FindOperatorDisplayed(x, g, y);
    SplitDisplayed(x, g, y);
    LeftOperandText(x);
    RightOperandText(y);
    ParseIntOfStr(x);
    ParseIntOfStr(y);
  }
}
