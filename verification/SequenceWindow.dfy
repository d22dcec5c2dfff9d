/** The window of spent sequence numbers (common/src/authn.rs): a 256-bit word over
the 256 numbers up to the highest seen, shown to stand for the unbounded set of
numbers ever presented. */
module SequenceWindow {
  const SEQ_WINDOW := 256

  // ---- Words

  function Pow2(n: nat): (p: nat)
    ensures p > 0
  {
    if n == 0 then 1 else 2 * Pow2(n - 1)
  }

  /** Bit `i` of a number, the lowest being bit 0. */
  predicate Bit(n: nat, i: nat) {
    if i == 0 then n % 2 == 1 else Bit(n / 2, i - 1)
  }

  function Or(a: nat, b: nat): nat {
    if a == 0 && b == 0 then 0
    else 2 * Or(a / 2, b / 2) + if a % 2 == 1 || b % 2 == 1 then 1 else 0
  }

  /** The first number that is too wide for a word. */
  const WORD_LIMIT := 0x1_0000000000000000_0000000000000000_0000000000000000_0000000000000000

  /** Shift left within a word; what passes its top is lost. */
  function Shl(n: nat, k: nat): nat {
    n * Pow2(k) % WORD_LIMIT
  }

  lemma {:induction false} PowAdds(a: nat, b: nat)
    ensures Pow2(a + b) == Pow2(a) * Pow2(b)
  {
    if b > 0 {
      PowAdds(a, b - 1);
      assert a + b - 1 == a + (b - 1);
    }
  }

  lemma {:induction false} PowDoubles(n: nat, p: nat, m: nat, q: nat)
    requires Pow2(n) == p && m == n + n && q == p * p
    ensures Pow2(m) == q
  {
    PowAdds(n, n);
  }

  lemma {:induction false} PowIsLimit(width: nat)
    requires width == SEQ_WINDOW
    ensures Pow2(width) == WORD_LIMIT
  {
    PowDoubles(1, 2, 2, 4);
    PowDoubles(2, 4, 4, 16);
    PowDoubles(4, 16, 8, 256);
    PowDoubles(8, 256, 16, 0x1_0000);
    var b, c, d := width / 8, width / 4, width / 2;
    PowDoubles(16, 0x1_0000, b, 0x1_0000_0000);
    PowDoubles(b, 0x1_0000_0000, c, 0x1_0000000000000000);
    PowDoubles(c, 0x1_0000000000000000, d, 0x1_0000000000000000_0000000000000000);
    PowDoubles(d, 0x1_0000000000000000_0000000000000000, width, WORD_LIMIT);
  }

  lemma {:induction false} PowGrows(k: nat, width: nat)
    requires k < width
    ensures Pow2(k) < Pow2(width)
  {
    if k + 1 < width {
      PowGrows(k, width - 1);
    }
  }

  lemma {:induction false} ZeroHasNoBits(i: nat)
    ensures !Bit(0, i)
  {
    if i > 0 {
      ZeroHasNoBits(i - 1);
    }
  }

  lemma {:induction false} PowHasOneBit(k: nat, i: nat)
    ensures Bit(Pow2(k), i) <==> i == k
  {
    if k == 0 && i > 0 {
      ZeroHasNoBits(i - 1);
    } else if k > 0 && i > 0 {
      PowHasOneBit(k - 1, i - 1);
    }
  }

  lemma {:induction false} OrHasBothBits(a: nat, b: nat, i: nat)
    ensures Bit(Or(a, b), i) <==> Bit(a, i) || Bit(b, i)
    decreases i
  {
    if a == 0 && b == 0 {
      ZeroHasNoBits(i);
    } else if i > 0 {
      OrHasBothBits(a / 2, b / 2, i - 1);
    }
  }

  lemma {:induction false} OrStaysNarrow(a: nat, b: nat, width: nat)
    requires a < Pow2(width) && b < Pow2(width)
    ensures Or(a, b) < Pow2(width)
  {
    if width > 0 && !(a == 0 && b == 0) {
      OrStaysNarrow(a / 2, b / 2, width - 1);
    }
  }

  lemma {:induction false} ShiftMovesBits(n: nat, k: nat, i: nat)
    ensures Bit(n * Pow2(k), i) <==> k <= i && Bit(n, i - k)
  {
    if k == 0 {
      assert n * Pow2(k) == n;
    } else {
      var half := n * Pow2(k - 1);
      assert n * Pow2(k) == 2 * half;
      if i > 0 {
        ShiftMovesBits(n, k - 1, i - 1);
      }
    }
  }

  lemma {:induction false} Remainder(n: nat, size: nat, q: nat, r: nat)
    requires size > 0 && n == q * size + r && r < size
    ensures n % size == r
  {
    var p := n / size;
    assert n == p * size + n % size;
    assert p < q ==> p * size <= (q - 1) * size;
    assert p > q ==> p * size >= (q + 1) * size;
  }

  lemma {:induction false} HalfOfSum(a: nat, r: nat)
    ensures (2 * a + r) / 2 == a + r / 2 && (2 * a + r) % 2 == r % 2
  {
  }

  lemma {:induction false} Divides(n: nat, size: nat) returns (whole: nat, q: nat)
    requires size > 0
    ensures whole == q * size && n == 2 * whole + n % (2 * size)
  {
    q := n / (2 * size);
    whole := q * size;
    assert q * (2 * size) == 2 * whole;
  }

  lemma {:induction false} HalvesCut(n: nat, size: nat, whole: nat, q: nat, r: nat)
    requires whole == q * size && n == 2 * whole + r && r < 2 * size
    ensures n / 2 % size == r / 2 && n % 2 == r % 2
  {
    HalfOfSum(whole, r);
    Remainder(n / 2, size, q, r / 2);
  }

  /** Cutting a number to a width and halving it is halving it and cutting it one
      shorter. */
  lemma {:induction false} HalfOfCut(n: nat, size: nat)
    requires size > 0
    ensures n % (2 * size) / 2 == n / 2 % size && n % (2 * size) % 2 == n % 2
  {
    var whole, q := Divides(n, size);
    HalvesCut(n, size, whole, q, n % (2 * size));
  }

  lemma {:induction false} CutKeepsLowBits(n: nat, width: nat, i: nat)
    ensures Bit(n % Pow2(width), i) <==> i < width && Bit(n, i)
    decreases width
  {
    if width == 0 {
      ZeroHasNoBits(i);
    } else {
      HalfOfCut(n, Pow2(width - 1));
      if i > 0 {
        CutKeepsLowBits(n / 2, width - 1, i - 1);
      }
    }
  }

  lemma {:induction false} ShlMovesBits(n: nat, k: nat, i: nat)
    ensures Bit(Shl(n, k), i) <==> k <= i < SEQ_WINDOW && Bit(n, i - k)
  {
    var width: nat := SEQ_WINDOW;
    PowIsLimit(width);
    CutKeepsLowBits(n * Pow2(k), width, i);
    ShiftMovesBits(n, k, i);
  }

  // ---- The window

  /** The highest number presented, and which of it and the 255 below were: the
      lowest bit stands for the highest number. */
  datatype Window = Window(highest: nat, seen: nat)

  const FRESH := Window(0, 0)

  function Spend(w: Window, number: nat): (Window, bool) {
    if number > w.highest then
      var shift := number - w.highest;
      var kept := if shift < SEQ_WINDOW then Shl(w.seen, shift) else 0;
      (Window(number, Or(kept, 1)), true)
    else
      var age := w.highest - number;
      if age >= SEQ_WINDOW || Bit(w.seen, age) then (w, false)
      else (w.(seen := Or(w.seen, Shl(1, age))), true)
  }

  /** Every bit of the word says whether its number was presented. */
  ghost predicate Represents(w: Window, presented: set<nat>) {
    && w.seen < WORD_LIMIT
    && (forall n <- presented :: n <= w.highest)
    && (w.highest in presented || (presented == {} && w.highest == 0))
    && (forall age: nat :: age < SEQ_WINDOW ==>
          (Bit(w.seen, age) <==> age <= w.highest && w.highest - age in presented))
  }

  /** What the window is for: a number is accepted exactly when it was never
      presented before and less than 256 below every number that was. */
  ghost predicate Acceptable(presented: set<nat>, number: nat) {
    && number !in presented
    && forall n <- presented :: n < number + SEQ_WINDOW
  }

  lemma {:induction false} FreshRepresents()
    ensures Represents(FRESH, {})
  {
    forall age: nat | age < SEQ_WINDOW
      ensures !Bit(FRESH.seen, age)
    {
      ZeroHasNoBits(age);
    }
  }

  /** The bits after a spend: the word stays a word, and each of its bits is the old
      bit of the same number, or the number just spent. */
  lemma {:induction false} SpendSetsBits(w: Window, number: nat, age: nat)
    requires w.seen < WORD_LIMIT && age < SEQ_WINDOW && Spend(w, number).1
    ensures var v := Spend(w, number).0;
      && v.seen < WORD_LIMIT && age < SEQ_WINDOW
      && (Bit(v.seen, age) <==>
            v.highest - age == number
            || (v.highest - w.highest <= age && Bit(w.seen, age - (v.highest - w.highest))))
  {
    var width: nat := SEQ_WINDOW;
    PowIsLimit(width);
    if number > w.highest {
      var shift := number - w.highest;
      var kept := if shift < SEQ_WINDOW then Shl(w.seen, shift) else 0;
      OrHasBothBits(kept, 1, age);
      PowHasOneBit(0, age);
      OrStaysNarrow(kept, 1, width);
      if shift < SEQ_WINDOW {
        ShlMovesBits(w.seen, shift, age);
      } else {
        ZeroHasNoBits(age);
      }
    } else {
      var bit := w.highest - number;
      OrHasBothBits(w.seen, Shl(1, bit), age);
      ShlMovesBits(1, bit, age);
      OneBit(age - bit);
      OrStaysNarrow(w.seen, Shl(1, bit), width);
    }
  }

  lemma {:induction false} OneBit(i: int)
    ensures i >= 0 ==> (Bit(1, i) <==> i == 0)
  {
    if i >= 0 {
      PowHasOneBit(0, i);
    }
  }

  lemma {:induction false} SpendRefines(w: Window, presented: set<nat>, number: nat)
    requires Represents(w, presented)
    ensures Spend(w, number).1 <==> Acceptable(presented, number)
    ensures Represents(Spend(w, number).0, presented + {number})
  {
    var (v, ok) := Spend(w, number);
    if number <= w.highest {
      assert w.highest - (w.highest - number) == number;
    }
    if ok {
      SpendSetsBits(w, number, 0);
      forall age: nat | age < SEQ_WINDOW
        ensures Bit(v.seen, age) <==> age <= v.highest && v.highest - age in presented + {number}
      {
        SpendSetsBits(w, number, age);
        var shift := v.highest - w.highest;
        if shift <= age {
          assert v.highest - age == w.highest - (age - shift);
        }
      }
    }
  }

  /** The window after a history of calls. */
  function After(history: seq<nat>): Window {
    if |history| == 0 then FRESH else Spend(After(history[..|history| - 1]), history[|history| - 1]).0
  }

  function Presented(history: seq<nat>): set<nat> {
    set n <- history
  }

  lemma {:induction false} AfterRepresents(history: seq<nat>)
    ensures Represents(After(history), Presented(history))
  {
    if |history| == 0 {
      FreshRepresents();
    } else {
      var before, last := history[..|history| - 1], history[|history| - 1];
      AfterRepresents(before);
      SpendRefines(After(before), Presented(before), last);
      assert history == before + [last];
      assert Presented(history) == Presented(before) + {last};
    }
  }

  /** After any sequence of calls, whatever was accepted or refused in it. */
  lemma {:induction false} SpendsOnce(history: seq<nat>, number: nat)
    ensures Spend(After(history), number).1 <==>
            number !in history && forall i :: 0 <= i < |history| ==> history[i] < number + SEQ_WINDOW
  {
    AfterRepresents(history);
    var presented := Presented(history);
    SpendRefines(After(history), presented, number);
    assert forall i :: 0 <= i < |history| ==> history[i] in presented;
  }

  class Tracker {
    var highest: nat
    var seen: nat

    constructor ()
      ensures View() == FRESH
    {
      highest, seen := 0, 0;
    }

    function View(): Window
      reads this
    {
      Window(highest, seen)
    }

    method SpendNext(number: nat) returns (ok: bool)
      modifies this
      ensures (View(), ok) == Spend(old(View()), number)
      ensures forall presented :: old(Represents(View(), presented)) ==>
                (ok <==> Acceptable(presented, number)) && Represents(View(), presented + {number})
    {
      ghost var before := View();
      if number > highest {
        var shift := number - highest;
        seen := if shift < SEQ_WINDOW then Shl(seen, shift) else 0;
        seen := Or(seen, 1);
        highest := number;
        ok := true;
      } else {
        var age := highest - number;
        ok := age < SEQ_WINDOW && !Bit(seen, age);
        if ok {
          seen := Or(seen, Shl(1, age));
        }
      }
      forall presented | Represents(before, presented)
        ensures (ok <==> Acceptable(presented, number)) && Represents(View(), presented + {number})
      {
        SpendRefines(before, presented, number);
      }
    }
  }
}
