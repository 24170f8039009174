/** The fact classifier of content.js: `needsCarryBorrow`, which walks the
    decimal digits of both operands from the least significant end, and
    `isTimesTable`. The walk works on the characters of `String(n)`, so a
    negative operand contributes its `-` sign as a `NaN` digit; that case is
    modelled as written rather than excluded. */
module Classifier {
  import opened Wrappers
  import opened JsText
  import opened ContentParser

  /** `String(n).split("").reverse()` */
  function Digits(n: int): string {
    Reverse(Str(n))
  }

  /** `parseInt(A[i] || "0", 10)`: the character at position `i` read as a
      number, `"0"` past the end, `NaN` (`None`) for the sign. `CharDigit`
      is `parseInt` of a one-character string (`JsText.ParseIntOfChar`). */
  function Cell(rev: string, i: nat): Option<int> {
    if i < |rev| then CharDigit(rev[i]) else CharDigit('0')
  }

  /** `Math.max(A.length, B.length)` */
  function Positions(a: int, b: int): nat {
    Max(|Digits(a)|, |Digits(b)|)
  }

  /** Position `i` of `a + b` has a digit sum of ten or more (a `NaN` digit
      makes every comparison false). */
  predicate CarryAt(a: int, b: int, i: nat) {
    var x := Cell(Digits(a), i);
    var y := Cell(Digits(b), i);
    x.Some? && y.Some? && x.value + y.value >= 10
  }

  /** Position `i` of `a - b` has a smaller digit in `a` than in `b`. */
  predicate BorrowAt(a: int, b: int, i: nat) {
    var x := Cell(Digits(a), i);
    var y := Cell(Digits(b), i);
    x.Some? && y.Some? && x.value < y.value
  }

  predicate HasCarry(a: int, b: int) {
    exists i :: 0 <= i < Positions(a, b) && CarryAt(a, b, i)
  }

  predicate HasBorrow(a: int, b: int) {
    exists i :: 0 <= i < Positions(a, b) && BorrowAt(a, b, i)
  }

  /** `needsCarryBorrow(op, a, b)`. The `carry` and `borrow` variables are
      only set after the early return, so they stay 0 while the loop runs:
      the answer is whether some single digit position carries or borrows. */
  method NeedsCarryBorrow(op: char, a: int, b: int) returns (r: bool)
    ensures r == ((op == '+' && HasCarry(a, b)) || (op == '-' && HasBorrow(a, b)))
  {
    if op != '+' && op != '-' {
      return false;
    }
    if op == '+' {
      r := ScanCarry(a, b);
    } else {
      r := ScanBorrow(a, b);
    }
  }

  /** The `+` branch of `needsCarryBorrow`: the scan returns at the first
      position whose digits sum to ten or more. */
  method ScanCarry(a: int, b: int) returns (r: bool)
    ensures r == HasCarry(a, b)
  {
    var digitsA := Digits(a);
    var digitsB := Digits(b);
    var len := Max(|digitsA|, |digitsB|);
    var carry := 0;
    for i := 0 to len
      invariant carry == 0
      invariant forall j :: 0 <= j < i ==> !CarryAt(a, b, j)
    {
      var x := Cell(digitsA, i);
      var y := Cell(digitsB, i);
      var sumIsNumber := x.Some? && y.Some?;
      if sumIsNumber && x.value + y.value + carry >= 10 {
        assert CarryAt(a, b, i);
        return true;
      }
      carry := if sumIsNumber && x.value + y.value + carry >= 10 then 1 else 0;
    }
    return false;
  }

  /** The `-` branch of `needsCarryBorrow`: the scan returns at the first
      position where the digit of `a` is the smaller. */
  method ScanBorrow(a: int, b: int) returns (r: bool)
    ensures r == HasBorrow(a, b)
  {
    var digitsA := Digits(a);
    var digitsB := Digits(b);
    var len := Max(|digitsA|, |digitsB|);
    var borrow := 0;
    for i := 0 to len
      invariant borrow == 0
      invariant forall j :: 0 <= j < i ==> !BorrowAt(a, b, j)
    {
      var x := Cell(digitsA, i);
      var y := Cell(digitsB, i);
      var less := x.Some? && y.Some? && x.value - borrow < y.value;
      if less {
        assert BorrowAt(a, b, i);
        return true;
      }
      borrow := if less then 1 else 0;
    }
    return false;
  }

  /** `isTimesTable(op, a, b)`: a `×` fact belongs to the table of `a`, a
      `÷` fact to the table of `b`, for tables 2 to 12. */
  predicate IsTimesTable(op: char, a: int, b: int) {
    if op == TIMES then 2 <= a <= 12
    else if op == DIVIDE then 2 <= b <= 12
    else false
  }

  /* ---------------- Reference definitions ---------------- */

  /** Decimal digit `k` of `n`, counting from the least significant. */
  function Digit(n: nat, k: nat): (d: nat)
    ensures d < 10
  {
    if k == 0 then n % 10 else Digit(n / 10, k - 1)
  }

  /** Schoolbook addition of `a` and `b` with an incoming carry: does any
      column produce a carry? */
  function LongAdditionCarries(a: nat, b: nat, carryIn: nat): bool
    requires carryIn <= 1
    decreases a + b
  {
    if a == 0 && b == 0 then false
    else
      var column := a % 10 + b % 10 + carryIn;
      var carryOut := if column >= 10 then 1 else 0;
      carryOut == 1 || LongAdditionCarries(a / 10, b / 10, carryOut)
  }

  /** Schoolbook subtraction of `b` from `a` with an incoming borrow: does
      any column need a borrow? */
  function LongSubtractionBorrows(a: nat, b: nat, borrowIn: nat): bool
    requires borrowIn <= 1
    decreases a + b
  {
    if a == 0 && b == 0 then false
    else
      var borrowOut := if a % 10 - borrowIn < b % 10 then 1 else 0;
      borrowOut == 1 || LongSubtractionBorrows(a / 10, b / 10, borrowOut)
  }

  /* ---------------- Lemmas ---------------- */

  lemma {:induction false} DigitOfZero(k: nat)
    ensures Digit(0, k) == 0
  {
    if k > 0 { DigitOfZero(k - 1); }
  }

  lemma {:induction false} ReverseAppend(s: string, c: char)
    ensures Reverse(s + [c]) == [c] + Reverse(s)
  {
    if s != [] {
      assert (s + [c])[1..] == s[1..] + [c];
      ReverseAppend(s[1..], c);
    }
  }

  /** The reversed characters of `String(n)` are the digits of `n`, and the
      positions past the end read as 0. */
  lemma {:induction false} CellOfNat(n: nat, i: nat)
    ensures Cell(Digits(n), i) == Some(Digit(n, i))
    decreases n
  {
    if n < 10 {
      assert Digits(n) == [DigitChar(n)];
      if i > 0 {
        DigitOfZero(i - 1);
      }
    } else {
      ReverseAppend(NatStr(n / 10), DigitChar(n % 10));
      assert Digits(n) == [DigitChar(n % 10)] + Digits(n / 10);
      if i > 0 {
        CellOfNat(n / 10, i - 1);
        assert Cell(Digits(n), i) == Cell(Digits(n / 10), i - 1);
      }
    }
  }

  /** For non-negative operands the loop of `needsCarryBorrow` answers
      "is there a digit position whose digits sum to ten or more?". */
  lemma CarryDigitwise(a: nat, b: nat)
    ensures HasCarry(a, b) <==> exists k: nat :: Digit(a, k) + Digit(b, k) >= 10
  {
    if HasCarry(a, b) {
      var i :| 0 <= i < Positions(a, b) && CarryAt(a, b, i);
      CellOfNat(a, i);
      CellOfNat(b, i);
    }
    if k: nat :| Digit(a, k) + Digit(b, k) >= 10 {
      CellOfNat(a, k);
      CellOfNat(b, k);
      assert k < Positions(a, b);
      assert CarryAt(a, b, k);
    }
  }

  /** For non-negative operands: "is there a digit position where `a` has
      the smaller digit?". */
  lemma BorrowDigitwise(a: nat, b: nat)
    ensures HasBorrow(a, b) <==> exists k: nat :: Digit(a, k) < Digit(b, k)
  {
    if HasBorrow(a, b) {
      var i :| 0 <= i < Positions(a, b) && BorrowAt(a, b, i);
      CellOfNat(a, i);
      CellOfNat(b, i);
    }
    if k: nat :| Digit(a, k) < Digit(b, k) {
      CellOfNat(a, k);
      CellOfNat(b, k);
      assert k < Positions(a, b);
      assert BorrowAt(a, b, k);
    }
  }

  lemma DigitShift(n: nat, k: nat)
    ensures Digit(n, k + 1) == Digit(n / 10, k)
  {
  }

  /** A carry in some column of `a` and `b` other than the lowest is a carry
      in some column of `a / 10` and `b / 10`, and back. */
  lemma ColumnSumShift(a: nat, b: nat)
    requires a % 10 + b % 10 < 10
    ensures (exists k: nat :: Digit(a, k) + Digit(b, k) >= 10)
            <==> (exists k: nat :: Digit(a / 10, k) + Digit(b / 10, k) >= 10)
  {
    if k: nat :| Digit(a, k) + Digit(b, k) >= 10 {
      assert k > 0;
      DigitShift(a, k - 1);
      DigitShift(b, k - 1);
      assert Digit(a / 10, k - 1) + Digit(b / 10, k - 1) >= 10;
    }
    if k: nat :| Digit(a / 10, k) + Digit(b / 10, k) >= 10 {
      DigitShift(a, k);
      DigitShift(b, k);
      assert Digit(a, k + 1) + Digit(b, k + 1) >= 10;
    }
  }

  lemma ColumnLessShift(a: nat, b: nat)
    requires a % 10 >= b % 10
    ensures (exists k: nat :: Digit(a, k) < Digit(b, k))
            <==> (exists k: nat :: Digit(a / 10, k) < Digit(b / 10, k))
  {
    if k: nat :| Digit(a, k) < Digit(b, k) {
      assert k > 0;
      DigitShift(a, k - 1);
      DigitShift(b, k - 1);
      assert Digit(a / 10, k - 1) < Digit(b / 10, k - 1);
    }
    if k: nat :| Digit(a / 10, k) < Digit(b / 10, k) {
      DigitShift(a, k);
      DigitShift(b, k);
      assert Digit(a, k + 1) < Digit(b, k + 1);
    }
  }

  lemma {:induction false} LongAdditionDigitwise(a: nat, b: nat)
    ensures LongAdditionCarries(a, b, 0) <==> exists k: nat :: Digit(a, k) + Digit(b, k) >= 10
    decreases a + b
  {
    if a == 0 && b == 0 {
      forall k: nat ensures Digit(a, k) + Digit(b, k) < 10 { DigitOfZero(k); }
    } else if a % 10 + b % 10 < 10 {
      LongAdditionDigitwise(a / 10, b / 10);
      assert LongAdditionCarries(a, b, 0) == LongAdditionCarries(a / 10, b / 10, 0);
      ColumnSumShift(a, b);
    } else {
      var units: nat := 0;
      assert LongAdditionCarries(a, b, 0);
      assert Digit(a, units) == a % 10 && Digit(b, units) == b % 10;
      assert Digit(a, units) + Digit(b, units) >= 10;
    }
  }

  lemma {:induction false} LongSubtractionDigitwise(a: nat, b: nat)
    ensures LongSubtractionBorrows(a, b, 0) <==> exists k: nat :: Digit(a, k) < Digit(b, k)
    decreases a + b
  {
    if a == 0 && b == 0 {
      forall k: nat ensures Digit(a, k) >= Digit(b, k) { DigitOfZero(k); }
    } else if a % 10 >= b % 10 {
      LongSubtractionDigitwise(a / 10, b / 10);
      assert LongSubtractionBorrows(a, b, 0) == LongSubtractionBorrows(a / 10, b / 10, 0);
      ColumnLessShift(a, b);
    } else {
      var units: nat := 0;
      assert LongSubtractionBorrows(a, b, 0);
      assert Digit(a, units) == a % 10 && Digit(b, units) == b % 10;
      assert Digit(a, units) < Digit(b, units);
    }
  }

  /** The early-return scan agrees with full schoolbook addition: the first
      carry of a long addition always comes from a column without an
      incoming carry. */
  lemma CarryIsLongAdditionCarry(a: nat, b: nat)
    ensures HasCarry(a, b) == LongAdditionCarries(a, b, 0)
  {
    CarryDigitwise(a, b);
    LongAdditionDigitwise(a, b);
  }

  /** The early-return scan agrees with full schoolbook subtraction. */
  lemma BorrowIsLongSubtractionBorrow(a: nat, b: nat)
    ensures HasBorrow(a, b) == LongSubtractionBorrows(a, b, 0)
  {
    BorrowDigitwise(a, b);
    LongSubtractionDigitwise(a, b);
  }

  /** Carry detection does not depend on the order of the operands. */
  lemma CarrySymmetric(a: int, b: int)
    ensures HasCarry(a, b) == HasCarry(b, a)
  {
    if HasCarry(a, b) {
      var i :| 0 <= i < Positions(a, b) && CarryAt(a, b, i);
      assert CarryAt(b, a, i);
    }
    if HasCarry(b, a) {
      var i :| 0 <= i < Positions(b, a) && CarryAt(b, a, i);
      assert CarryAt(a, b, i);
    }
  }

  /** The worked examples: 19 + 1 carries, 10 + 20 does not; 20 - 11
      borrows, 25 - 14 does not. */
  lemma CarryExample()
    ensures HasCarry(19, 1)
  {
    CarryIsLongAdditionCarry(19, 1);
  }

  lemma NoCarryExample()
    ensures !HasCarry(10, 20)
  {
    CarryIsLongAdditionCarry(10, 20);
  }

  lemma BorrowExample()
    ensures HasBorrow(20, 11)
  {
    BorrowIsLongSubtractionBorrow(20, 11);
  }

  lemma NoBorrowExample()
    ensures !HasBorrow(25, 14)
  {
    BorrowIsLongSubtractionBorrow(25, 14);
  }
}
