/** What the operators of the compile-time interpreter mean, as laws on their results: modulo
    two to the 64th for sums, by quotient and remainder for division, bit by bit for the rest.
    The interpreter's operators are exactly the ones that keep the laws. */
module OperatorLaws {
  import opened Ctfe

  const WIDTH: nat := 0x1_0000_0000_0000_0000

  /** Bit `i` of a number in two's complement. */
  function Bit(x: int, i: nat): bool
    decreases i
  {
    if i == 0 then x % 2 == 1 else Bit(x / 2, i - 1)
  }

  /** The same but for a multiple of two to the 64th. */
  ghost predicate Congruent(x: int, y: int) {
    exists k: int :: Apart(x, y, k, WIDTH)
  }

  predicate Apart(x: int, y: int, k: int, n: int) {
    x == y + k * n
  }

  /** `a` is `b` times `q` and `r` left over, rounding toward zero. */
  predicate Divides(a: int, b: int, q: int, r: int) {
    && a == b * q + r
    && (if b > 0 then -b < r < b else b < r < -b)
    && (a >= 0 ==> r >= 0) && (a <= 0 ==> r <= 0)
  }

  ghost predicate UnaryLaw(op: UnOp, a: I64, v: I64) {
    match op
    case Neg => Congruent(v + a, 0)
    case Not => (v == 1 && a == 0) || (v == 0 && a != 0)
    case BitNot => forall i | 0 <= i < 64 :: Bit(v, i) == !Bit(a, i)
  }

  predicate Decides(v: I64, holds: bool) {
    (v == 1 && holds) || (v == 0 && !holds)
  }

  /** `&&` and `||` have no law: they are decided before both values are known. */
  ghost predicate BinaryLaw(op: BinOp, a: I64, b: I64, v: I64) {
    match op
    case Add => Congruent(v, a + b)
    case Sub => Congruent(v, a - b)
    case Mul => Congruent(v, a * b)
    case Div => b != 0 && exists r :: Divides(a, b, v, r)
    case Mod => b != 0 && exists q: I64 :: Divides(a, b, q, v)
    case Eq => Decides(v, a == b)
    case Ne => Decides(v, a != b)
    case Lt => Decides(v, a < b)
    case Le => Decides(v, a < b || a == b)
    case Gt => Decides(v, b < a)
    case Ge => Decides(v, b < a || a == b)
    case BitAnd => forall i | 0 <= i < 64 :: Bit(v, i) == (Bit(a, i) && Bit(b, i))
    case BitOr => forall i | 0 <= i < 64 :: Bit(v, i) == (Bit(a, i) || Bit(b, i))
    case BitXor => forall i | 0 <= i < 64 :: Bit(v, i) == (Bit(a, i) != Bit(b, i))
    case Shl => forall i | 0 <= i < 64 :: Bit(v, i) == (i >= b % 64 && Bit(a, i - b % 64))
    case Shr => forall i | 0 <= i < 64 :: Bit(v, i) == Bit(a, if i + b % 64 < 63 then i + b % 64 else 63)
    case _ => false
  }

  // --------------------------------------------------------------- congruence

  lemma WrapCongruent(x: int)
    ensures Congruent(Wrap(x), x)
  {
    var k := x / WIDTH;
    assert x == k * WIDTH + x % WIDTH;
    if x % WIDTH > MAX64 {
      assert Apart(Wrap(x), x, -k - 1, WIDTH);
    } else {
      assert Apart(Wrap(x), x, -k, WIDTH);
    }
  }

  /** Only one 64-bit value is congruent to a number. */
  lemma CongruentOnce(u: I64, v: I64, x: int)
    requires Congruent(u, x) && Congruent(v, x)
    ensures u == v
  {
    var j :| Apart(u, x, j, WIDTH);
    var k :| Apart(v, x, k, WIDTH);
    assert u - v == (j - k) * WIDTH;
  }

  lemma WrapLaw(x: int, v: I64)
    ensures v == Wrap(x) <==> Congruent(v, x)
  {
    WrapCongruent(x);
    if Congruent(v, x) { CongruentOnce(v, Wrap(x), x); }
  }

  lemma Shifted(x: int, y: int, d: int)
    requires Congruent(x, y)
    ensures Congruent(x + d, y + d)
  {
    var k :| Apart(x, y, k, WIDTH);
    assert Apart(x + d, y + d, k, WIDTH);
  }

  lemma NegLaw(a: I64, v: I64)
    ensures v == Wrap(0 - a as int) <==> Congruent(v + a, 0)
  {
    WrapLaw(0 - a, v);
    if Congruent(v + a, 0) { Shifted(v + a, 0, 0 - a as int); }
    if Congruent(v, 0 - a) { Shifted(v, 0 - a, a); }
  }

  // ------------------------------------------------------------------ division

  lemma DivisionIs(a: int, b: int)
    requires b != 0
    ensures Divides(a, b, Quotient(a, b), Remainder(a, b))
  {
    var q, r := Abs(a) / Abs(b), Abs(a) % Abs(b);
    assert Abs(a) == Abs(b) * q + r;
  }

  /** A product larger than the difference of two remainders. */
  lemma SmallProduct(b: int, k: int)
    requires b != 0 && k != 0
    ensures Abs(b * k) >= Abs(b)
  {
  }

  lemma DivisionOnce(a: int, b: int, q1: int, r1: int, q2: int, r2: int)
    requires b != 0 && Divides(a, b, q1, r1) && Divides(a, b, q2, r2)
    ensures q1 == q2 && r1 == r2
  {
    assert b * (q1 - q2) == r2 - r1;
    if q1 != q2 { SmallProduct(b, q1 - q2); }
  }

  lemma QuotientFits(a: I64, b: I64)
    requires b != 0 && !(a == MIN64 && b == -1)
    ensures MIN64 <= Quotient(a, b) <= MAX64 && MIN64 <= Remainder(a, b) <= MAX64
  {
    DivisionIs(a, b);
    QuotientSmaller(Abs(a), Abs(b));
  }

  lemma Times(q: nat, b: nat, c: nat)
    requires c <= b
    ensures c * q <= b * q
  {
  }

  lemma QuotientSmaller(a: nat, b: nat)
    requires b > 0
    ensures a / b <= a && (b > 1 ==> 2 * (a / b) <= a)
  {
    var q := a / b;
    assert a == b * q + a % b;
    Times(q, b, 1);
    if b > 1 { Times(q, b, 2); }
  }

  lemma InRange(x: int)
    requires MIN64 <= x <= MAX64
    ensures Wrap(x) == x
  {
  }

  lemma DivLaw(a: I64, b: I64, v: I64)
    ensures Compute(Div, a, b) == Computed(v) <==> BinaryLaw(Div, a, b, v)
  {
    if b != 0 {
      DivisionIs(a, b);
      if a == MIN64 && b == -1 {
        if r :| Divides(a, b, v, r) { DivisionOnce(a, b, v, r, Quotient(a, b), Remainder(a, b)); }
      } else {
        QuotientFits(a, b);
        InRange(Quotient(a, b));
        if r :| Divides(a, b, v, r) { DivisionOnce(a, b, v, r, Quotient(a, b), Remainder(a, b)); }
      }
    }
  }

  lemma ModLaw(a: I64, b: I64, v: I64)
    ensures Compute(Mod, a, b) == Computed(v) <==> BinaryLaw(Mod, a, b, v)
  {
    if b != 0 {
      DivisionIs(a, b);
      if a == MIN64 && b == -1 {
        if q: I64 :| Divides(a, b, q, v) { DivisionOnce(a, b, q, v, Quotient(a, b), Remainder(a, b)); }
      } else {
        QuotientFits(a, b);
        InRange(Remainder(a, b));
        if q: I64 :| Divides(a, b, q, v) { DivisionOnce(a, b, q, v, Quotient(a, b), Remainder(a, b)); }
      }
    }
  }

  // ---------------------------------------------------------------------- bits

  lemma PowerOf64()
    ensures PowerPos(64) == WIDTH
  {
    assert PowerPos(4) == 16;
    PowerSum(4, 4);
    PowerSum(8, 8);
    PowerSum(16, 16);
    PowerSum(32, 32);
  }

  lemma {:induction false} PowerSum(m: nat, n: nat)
    ensures PowerPos(m + n) == PowerPos(m) * PowerPos(n)
    decreases n
  {
    if n > 0 { PowerSum(m, n - 1); }
  }

  lemma Doubled(k: int, p: int)
    ensures k * (2 * p) == 2 * (k * p)
  {
  }

  /** Numbers that differ by a multiple of two to the `n`th have the same `n` lowest bits. */
  lemma {:induction false} SameBits(x: int, y: int, k: int, n: nat, i: nat)
    requires Apart(x, y, k, PowerPos(n)) && i < n
    ensures Bit(x, i) == Bit(y, i)
    decreases n
  {
    Doubled(k, PowerPos(n - 1));
    var j := k * PowerPos(n - 1);
    assert x == y + 2 * j && x / 2 == y / 2 + j && x % 2 == y % 2;
    if i > 0 { SameBits(x / 2, y / 2, k, n - 1, i - 1); }
  }

  /** And the other way around. */
  lemma {:induction false} BitsSame(x: int, y: int, n: nat) returns (k: int)
    requires forall i | 0 <= i < n :: Bit(x, i) == Bit(y, i)
    ensures Apart(x, y, k, PowerPos(n))
    decreases n
  {
    if n == 0 {
      k := x - y;
    } else {
      assert Bit(x, 0) == Bit(y, 0);
      forall i | 0 <= i < n - 1 ensures Bit(x / 2, i) == Bit(y / 2, i) {
        assert Bit(x, i + 1) == Bit(y, i + 1);
      }
      k := BitsSame(x / 2, y / 2, n - 1);
      Doubled(k, PowerPos(n - 1));
    }
  }

  ghost predicate SameWord(x: int, y: int) {
    forall i | 0 <= i < 64 :: Bit(x, i) == Bit(y, i)
  }

  lemma WordIsCongruent(x: int, y: int)
    ensures SameWord(x, y) <==> Congruent(x, y)
  {
    PowerOf64();
    if SameWord(x, y) {
      var k := BitsSame(x, y, 64);
    }
    if k :| Apart(x, y, k, WIDTH) {
      forall i | 0 <= i < 64 ensures Bit(x, i) == Bit(y, i) {
        SameBits(x, y, k, 64, i);
      }
    }
  }

  /** The 64-bit value with the lowest 64 bits of `x` is the only one that has them. */
  lemma WrapBits(x: int, v: I64)
    ensures v == Wrap(x) <==> SameWord(v, x)
  {
    WrapLaw(x, v);
    WordIsCongruent(v, x);
  }

  lemma Halves(low: nat, high: int)
    requires low < 2
    ensures (low + 2 * high) / 2 == high && (low + 2 * high) % 2 == low
  {
  }

  lemma BitwiseStep(op: BinOp, l: int, r: int, n: nat)
    requires n > 0
    ensures OneBit(op, l % 2 == 1, r % 2 == 1) < 2
    ensures Bitwise(op, l, r, n) == OneBit(op, l % 2 == 1, r % 2 == 1) + 2 * Bitwise(op, l / 2, r / 2, n - 1)
  {
  }

  lemma {:induction false} BitwiseBit(op: BinOp, l: int, r: int, n: nat, i: nat)
    requires i < n
    ensures Bit(Bitwise(op, l, r, n), i) == (OneBit(op, Bit(l, i), Bit(r, i)) == 1)
    decreases n
  {
    hide Bitwise, OneBit;
    BitwiseStep(op, l, r, n);
    var low, high := OneBit(op, l % 2 == 1, r % 2 == 1), Bitwise(op, l / 2, r / 2, n - 1);
    Halves(low, high);
    if i > 0 { BitwiseBit(op, l / 2, r / 2, n - 1, i - 1); }
  }

  lemma BitwiseLaw(op: BinOp, a: I64, b: I64, v: I64)
    requires op == BitAnd || op == BitOr || op == BitXor
    ensures Compute(op, a, b) == Computed(v) <==> BinaryLaw(op, a, b, v)
  {
    hide Bit, Bitwise, Wrap;
    var x := Bitwise(op, a, b, 64);
    WrapBits(x, v);
    forall i | 0 <= i < 64 ensures Bit(x, i) == (OneBit(op, Bit(a, i), Bit(b, i)) == 1) {
      BitwiseBit(op, a, b, 64, i);
    }
  }

  lemma {:induction false} NotBit(a: int, i: nat)
    ensures Bit(-1 - a, i) == !Bit(a, i)
    decreases i
  {
    if i > 0 {
      assert (-1 - a) / 2 == -1 - a / 2;
      NotBit(a / 2, i - 1);
    }
  }

  lemma BitNotLaw(a: I64, v: I64)
    ensures v == Unary(BitNot, a) <==> UnaryLaw(BitNot, a, v)
  {
    WrapBits(-1 - a, v);
    InRange(-1 - a);
    forall i | 0 <= i < 64 ensures Bit(-1 - a, i) == !Bit(a, i) {
      NotBit(a, i);
    }
  }

  lemma {:induction false} ShiftedUp(x: int, k: nat, i: nat)
    ensures Bit(x * PowerPos(k), i) == (i >= k && Bit(x, i - k))
    decreases k
  {
    if k == 0 {
      assert x * PowerPos(0) == x;
    } else {
      Doubled(x, PowerPos(k - 1));
      var y := x * PowerPos(k - 1);
      assert x * PowerPos(k) == 2 * y && (2 * y) / 2 == y;
      if i > 0 { ShiftedUp(x, k - 1, i - 1); }
    }
  }

  lemma HalvedTwice(x: int, p: int)
    requires p > 0
    ensures x / (2 * p) == (x / 2) / p
  {
    var h := x / 2;
    var q := h / p;
    assert h == p * q + h % p;
    assert x == (2 * p) * q + (2 * (h % p) + x % 2);
    DivisionUnique(x, 2 * p, q, 2 * (h % p) + x % 2);
  }

  lemma DivisionUnique(x: int, n: int, q: int, r: int)
    requires n > 0 && x == n * q + r && 0 <= r < n
    ensures x / n == q
  {
    assert n * (x / n - q) == r - x % n;
    if x / n != q { SmallProduct(n, x / n - q); }
  }

  lemma {:induction false} ShiftedDown(x: int, k: nat, i: nat)
    ensures Bit(x / PowerPos(k), i) == Bit(x, i + k)
    decreases k
  {
    if k > 0 {
      HalvedTwice(x, PowerPos(k - 1));
      ShiftedDown(x / 2, k - 1, i);
    }
  }

  /** Above its size, all bits of a number are its sign. */
  lemma {:induction false} SignBits(x: int, n: nat, i: nat)
    requires 0 <= x + PowerPos(n) && x < PowerPos(n) && i >= n
    ensures Bit(x, i) == (x < 0)
    decreases i
  {
    if n > 0 {
      SignBits(x / 2, n - 1, i - 1);
    } else if i > 0 {
      SignBits(x / 2, 0, i - 1);
    }
  }

  lemma ShlLaw(a: I64, b: I64, v: I64)
    ensures Compute(Shl, a, b) == Computed(v) <==> BinaryLaw(Shl, a, b, v)
  {
    var k := b % 64;
    WrapBits(a * PowerPos(k), v);
    forall i | 0 <= i < 64 ensures Bit(a * PowerPos(k), i) == (i >= k && Bit(a, i - k)) {
      ShiftedUp(a, k, i);
    }
  }

  lemma ShrLaw(a: I64, b: I64, v: I64)
    ensures Compute(Shr, a, b) == Computed(v) <==> BinaryLaw(Shr, a, b, v)
  {
    var k := b % 64;
    WrapBits(a / PowerPos(k), v);
    PowerOf64();
    forall i | 0 <= i < 64 ensures Bit(a / PowerPos(k), i) == Bit(a, if i + k < 63 then i + k else 63) {
      ShiftedDown(a, k, i);
      if i + k >= 63 {
        SignBits(a, 63, i + k);
        SignBits(a, 63, 63);
      }
    }
  }

  // -------------------------------------------------------------------- results

  /** A unary operator gives exactly the value that keeps its law. */
  lemma UnaryIsLawful(op: UnOp, a: I64, v: I64)
    ensures v == Unary(op, a) <==> UnaryLaw(op, a, v)
  {
    match op
    case Neg => NegLaw(a, v);
    case Not =>
    case BitNot => BitNotLaw(a, v);
  }

  /** So does a binary one; it gives none where no 64-bit value keeps the law. */
  lemma BinaryIsLawful(op: BinOp, a: I64, b: I64, v: I64)
    ensures Compute(op, a, b) == Computed(v) <==> BinaryLaw(op, a, b, v)
  {
    match op
    case Add => WrapLaw(a + b, v);
    case Sub => WrapLaw(a - b, v);
    case Mul => WrapLaw(a * b, v);
    case Div => DivLaw(a, b, v);
    case Mod => ModLaw(a, b, v);
    case BitAnd => BitwiseLaw(op, a, b, v);
    case BitOr => BitwiseLaw(op, a, b, v);
    case BitXor => BitwiseLaw(op, a, b, v);
    case Shl => ShlLaw(a, b, v);
    case Shr => ShrLaw(a, b, v);
    case _ =>
  }
}
