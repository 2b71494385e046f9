/**
  The buy-only market maker of `simulate_point_pricing.py`, over the reals: the closed-form quote
  against the cost function, and the reserve that covers every path of buys.
 */
module Lmsr {

  /** The exponential and the logarithm, known by their laws alone. */
  datatype Curve = Curve(exp: real -> real, ln: real -> real)

  ghost predicate Adds(c: Curve, x: real, y: real) { c.exp(x + y) == c.exp(x) * c.exp(y) }
  ghost predicate Positive(c: Curve, x: real) { c.exp(x) > 0.0 }
  ghost predicate Rises(c: Curve, x: real, y: real) { x < y ==> c.exp(x) < c.exp(y) }
  ghost predicate Inverts(c: Curve, y: real) { y > 0.0 ==> c.exp(c.ln(y)) == y }

  ghost predicate IsExponential(c: Curve) {
    && (forall x, y :: Adds(c, x, y))
    && (forall x :: Positive(c, x))
    && (forall x, y :: Rises(c, x, y))
    && (forall y :: Inverts(c, y))
  }

  lemma SameExp(c: Curve, x: real, y: real)
    requires x == y
    ensures c.exp(x) == c.exp(y)
  {}

  lemma ExpOfSum(c: Curve, x: real, y: real, z: real)
    requires Adds(c, x, y) && z == x + y
    ensures c.exp(z) == c.exp(x) * c.exp(y)
  {
    SameExp(c, z, x + y);
  }

  /** The one positive number that is its own square. */
  lemma OwnSquare(e: real, f: real, g: real)
    requires e > 0.0 && e == f == g && g == e * f
    ensures e == 1.0
  {
    assert e * (e - 1.0) == e * e - e;
    ZeroFactor(e, e - 1.0);
  }

  lemma ZeroFactor(k: real, x: real)
    requires k != 0.0 && k * x == 0.0
    ensures x == 0.0
  {}

  lemma ExpOfZero(c: Curve, x: real)
    requires IsExponential(c) && x == 0.0
    ensures c.exp(x) == 1.0
  {
    var y, z := x, x;
    assert Adds(c, x, y) && Positive(c, x);
    ExpOfSum(c, x, y, z);
    OwnSquare(c.exp(x), c.exp(y), c.exp(z));
  }

  lemma ExpZero(c: Curve)
    requires IsExponential(c)
    ensures c.exp(0.0) == 1.0
  {
    ExpOfZero(c, 0.0);
  }

  lemma CancelFactor(k: real, x: real, y: real)
    requires k != 0.0 && k * x == k * y
    ensures x == y
  {
    assert k * (x - y) == 0.0;
  }

  /** A positive product with a positive factor. */
  lemma PositiveFactor(k: real, x: real)
    ensures k > 0.0 && k * x > 0.0 ==> x > 0.0
  {
    if k > 0.0 && x <= 0.0 { assert k * x <= 0.0; }
  }

  lemma ExpIsInjective(c: Curve, x: real, y: real)
    requires IsExponential(c) && c.exp(x) == c.exp(y)
    ensures x == y
  {
    assert Rises(c, x, y) && Rises(c, y, x);
  }

  lemma ExpReflectsOrder(c: Curve, x: real, y: real)
    requires IsExponential(c) && c.exp(x) < c.exp(y)
    ensures x < y
  {
    assert Rises(c, y, x);
  }

  // ---------------------------------------------------------------- cost

  function Max(x: real, y: real): real { if x >= y then x else y }
  function Abs(x: real): real { if x >= 0.0 then x else -x }

  /** The program's formula, which never takes the exponential of a positive number. */
  function Cost(c: Curve, yes: real, no: real, b: real): real
    requires b > 0.0
  {
    Max(yes, no) + b * c.ln(1.0 + c.exp(-Abs(yes - no) / b))
  }

  lemma ScaledSum(x: real, y: real, b: real)
    requires b > 0.0
    ensures (x + b * y) / b == x / b + y
  {
    assert b * y / b == y;
  }

  lemma ScaledDifference(x: real, y: real, b: real)
    requires b > 0.0
    ensures x / b + -y / b == (x - y) / b
  {}

  /** The formula is the logarithm of a sum of exponentials. */
  lemma CostIsLogSum(c: Curve, yes: real, no: real, b: real)
    requires IsExponential(c) && b > 0.0
    ensures c.exp(Cost(c, yes, no, b) / b) == c.exp(yes / b) + c.exp(no / b)
  {
    var m, d := Max(yes, no), Abs(yes - no);
    var e := c.exp(-d / b);
    assert Positive(c, -d / b) && Inverts(c, 1.0 + e);
    ScaledSum(m, c.ln(1.0 + e), b);
    SameExp(c, Cost(c, yes, no, b) / b, m / b + c.ln(1.0 + e));
    assert Adds(c, m / b, c.ln(1.0 + e));
    ScaledDifference(m, d, b);
    SameExp(c, m / b + -d / b, (m - d) / b);
    assert Adds(c, m / b, -d / b);
    if yes >= no { assert m == yes && m - d == no; } else { assert m == no && m - d == yes; }
    var p := c.exp(m / b);
    assert p * (1.0 + e) == p + p * e;
  }

  lemma CostIsUnique(c: Curve, cost: real, yes: real, no: real, b: real)
    requires IsExponential(c) && b > 0.0 && c.exp(cost / b) == c.exp(yes / b) + c.exp(no / b)
    ensures cost == Cost(c, yes, no, b)
  {
    CostIsLogSum(c, yes, no, b);
    ExpIsInjective(c, cost / b, Cost(c, yes, no, b) / b);
    EqualScaled(cost, Cost(c, yes, no, b), b);
  }

  lemma EqualScaled(x: real, y: real, b: real)
    requires b > 0.0 && x / b == y / b
    ensures x == y
  {
    assert b * (x / b) == x && b * (y / b) == y;
  }

  /** The price of YES. */
  function Price(c: Curve, yes: real, no: real, b: real): real
    requires b > 0.0 && c.exp(yes / b) + c.exp(no / b) != 0.0
  {
    c.exp(yes / b) / (c.exp(yes / b) + c.exp(no / b))
  }

  lemma PriceIsProbability(c: Curve, yes: real, no: real, b: real)
    requires IsExponential(c) && b > 0.0
    ensures c.exp(yes / b) + c.exp(no / b) > 0.0
    ensures 0.0 < Price(c, yes, no, b) < 1.0
    ensures Price(c, yes, no, b) * c.exp(Cost(c, yes, no, b) / b) == c.exp(yes / b)
    ensures (1.0 - Price(c, yes, no, b)) * c.exp(Cost(c, yes, no, b) / b) == c.exp(no / b)
  {
    assert Positive(c, yes / b) && Positive(c, no / b);
    CostIsLogSum(c, yes, no, b);
    Share(c.exp(yes / b), c.exp(no / b));
  }

  lemma Share(u: real, v: real)
    requires u > 0.0 && v > 0.0
    ensures 0.0 < u / (u + v) < 1.0
    ensures u / (u + v) * (u + v) == u && (1.0 - u / (u + v)) * (u + v) == v
  {
    var p := u / (u + v);
    assert p * (u + v) == u;
    assert (1.0 - p) * (u + v) == (u + v) - p * (u + v);
    PositiveFactor(u + v, p);
    PositiveFactor(u + v, 1.0 - p);
  }

  // ---------------------------------------------------------------- quote

  datatype Quote = Quote(claims: real, afterProbability: real)

  function QuoteFor(c: Curve, p: real, spend: real, b: real): Quote
    requires p != 0.0 && b > 0.0
  {
    Quote(b * c.ln(1.0 + (c.exp(spend / b) - 1.0) / p), 1.0 - (1.0 - p) * c.exp(-spend / b))
  }

  /** The exponential of the quoted claims: the growth that makes the weighted sum grow by the spend. */
  lemma ClaimsGrow(c: Curve, p: real, spend: real, b: real)
    requires IsExponential(c) && b > 0.0 && 0.0 < p < 1.0 && c.exp(spend / b) > 1.0 - p
    ensures p * c.exp(QuoteFor(c, p, spend, b).claims / b) + (1.0 - p) == c.exp(spend / b)
  {
    var g := 1.0 + (c.exp(spend / b) - 1.0) / p;
    Growth(p, c.exp(spend / b), g);
    assert Inverts(c, g);
    Unscale(c.ln(g), b);
    SameExp(c, QuoteFor(c, p, spend, b).claims / b, c.ln(g));
  }

  lemma Growth(p: real, s: real, g: real)
    requires 0.0 < p && s > 1.0 - p && g == 1.0 + (s - 1.0) / p
    ensures g > 0.0 && p * g + (1.0 - p) == s
  {
    var q := (s - 1.0) / p;
    assert p * q == s - 1.0;
    assert p * g == p + p * q;
    PositiveFactor(p, g);
  }

  lemma Unscale(x: real, b: real)
    requires b > 0.0
    ensures b * x / b == x
  {}

  /** The weighted sum after the buy is the exponential of the cost and the spend. */
  lemma SumAfterBuy(c: Curve, p: real, cost: real, yes: real, no: real, claims: real, spend: real, b: real)
    requires IsExponential(c) && b > 0.0
    requires p * c.exp(cost / b) == c.exp(yes / b) && (1.0 - p) * c.exp(cost / b) == c.exp(no / b)
    requires p * c.exp(claims / b) + (1.0 - p) == c.exp(spend / b)
    ensures c.exp((cost + spend) / b) == c.exp((yes + claims) / b) + c.exp(no / b)
    ensures c.exp((cost + spend) / b) == c.exp(cost / b) * c.exp(spend / b)
  {
    SumScaled(yes, claims, b);
    SumScaled(cost, spend, b);
    SameExp(c, (yes + claims) / b, yes / b + claims / b);
    SameExp(c, (cost + spend) / b, cost / b + spend / b);
    assert Adds(c, yes / b, claims / b) && Adds(c, cost / b, spend / b);
    Regroup(p, c.exp(cost / b), c.exp(claims / b), c.exp(spend / b));
  }

  /** Buying the quoted claims costs exactly the spend, from any holdings; and leaves the price quoted. */
  lemma QuoteInvertsCost(c: Curve, yes: real, no: real, spend: real, b: real)
    requires IsExponential(c) && b > 0.0 && c.exp(yes / b) + c.exp(no / b) != 0.0
    requires Price(c, yes, no, b) != 0.0 && c.exp(spend / b) > 1.0 - Price(c, yes, no, b)
    ensures var q := QuoteFor(c, Price(c, yes, no, b), spend, b);
            && Cost(c, yes + q.claims, no, b) == Cost(c, yes, no, b) + spend
            && c.exp((yes + q.claims) / b) + c.exp(no / b) != 0.0
            && Price(c, yes + q.claims, no, b) == q.afterProbability
  {
    var p, cost := Price(c, yes, no, b), Cost(c, yes, no, b);
    var claims := QuoteFor(c, p, spend, b).claims;
    PriceIsProbability(c, yes, no, b);
    ClaimsGrow(c, p, spend, b);
    SumAfterBuy(c, p, cost, yes, no, claims, spend, b);
    CostIsUnique(c, cost + spend, yes + claims, no, b);
    PriceAfterBuy(c, p, cost, yes + claims, no, spend, b);
  }

  lemma PriceAfterBuy(c: Curve, p: real, cost: real, yes: real, no: real, spend: real, b: real)
    requires IsExponential(c) && b > 0.0 && Cost(c, yes, no, b) == cost + spend
    requires (1.0 - p) * c.exp(cost / b) == c.exp(no / b)
    requires c.exp((cost + spend) / b) == c.exp(cost / b) * c.exp(spend / b)
    ensures c.exp(yes / b) + c.exp(no / b) != 0.0
    ensures Price(c, yes, no, b) == 1.0 - (1.0 - p) * c.exp(-spend / b)
  {
    PriceIsProbability(c, yes, no, b);
    assert Positive(c, cost / b);
    SameExp(c, Cost(c, yes, no, b) / b, (cost + spend) / b);
    AfterPrice(c, p, c.exp(cost / b), c.exp(Cost(c, yes, no, b) / b), spend, b, Price(c, yes, no, b));
  }

  /** Every spend that is not negative can be quoted, at every price. */
  lemma SpendsAreQuotable(c: Curve, yes: real, no: real, spend: real, b: real)
    requires IsExponential(c) && b > 0.0 && spend >= 0.0
    ensures c.exp(yes / b) + c.exp(no / b) != 0.0
    ensures Price(c, yes, no, b) != 0.0 && c.exp(spend / b) > 1.0 - Price(c, yes, no, b)
  {
    PriceIsProbability(c, yes, no, b);
    ExpOfZero(c, 0.0 / b);
    if spend > 0.0 {
      LessScaled(0.0, spend, b);
      assert Rises(c, 0.0 / b, spend / b);
    }
  }

  lemma SumScaled(x: real, y: real, b: real)
    requires b > 0.0
    ensures (x + y) / b == x / b + y / b
  {}

  lemma Regroup(p: real, z: real, g: real, s: real)
    requires p * g + (1.0 - p) == s
    ensures (p * z) * g + (1.0 - p) * z == z * s
  {
    assert z * (p * g + (1.0 - p)) == z * (p * g) + z * (1.0 - p);
    assert (p * z) * g == z * (p * g);
  }

  lemma Shrunk(z: real, a: real, q: real, s: real, t: real)
    requires z > 0.0 && t == z * s && a * t == q * z
    ensures a * s == q
  {
    assert a * (z * s) == z * (a * s);
    CancelFactor(z, a * s, q);
  }

  lemma Undone(a: real, s: real, r: real, q: real)
    requires s * r == 1.0 && a * s == q
    ensures a == q * r
  {
    assert (a * s) * r == a * (s * r);
  }

  /** The NO share shrinks by the exponential of the spend. */
  lemma AfterPrice(c: Curve, p: real, z: real, total: real, spend: real, b: real, after: real)
    requires IsExponential(c) && b > 0.0 && z > 0.0
    requires total == z * c.exp(spend / b) && (1.0 - after) * total == (1.0 - p) * z
    ensures after == 1.0 - (1.0 - p) * c.exp(-spend / b)
  {
    var s, r := c.exp(spend / b), c.exp(-spend / b);
    assert Adds(c, spend / b, -spend / b);
    ExpOfZero(c, spend / b + -spend / b);
    assert s * r == 1.0;
    Shrunk(z, 1.0 - after, 1.0 - p, s, total);
    Undone(1.0 - after, s, r, 1.0 - p);
  }

  /** A buyer's other choice of claims would not cost the spend. */
  lemma CostRises(c: Curve, yes: real, more: real, no: real, b: real)
    requires IsExponential(c) && b > 0.0 && more > 0.0
    ensures Cost(c, yes, no, b) < Cost(c, yes + more, no, b)
    ensures Cost(c, no, yes, b) < Cost(c, no, yes + more, b)
  {
    CostIsLogSum(c, yes, no, b);
    CostIsLogSum(c, yes + more, no, b);
    CostIsLogSum(c, no, yes, b);
    CostIsLogSum(c, no, yes + more, b);
    LessScaled(yes, yes + more, b);
    assert Rises(c, yes / b, (yes + more) / b);
    ExpReflectsOrder(c, Cost(c, yes, no, b) / b, Cost(c, yes + more, no, b) / b);
    ExpReflectsOrder(c, Cost(c, no, yes, b) / b, Cost(c, no, yes + more, b) / b);
    Unscaled(Cost(c, yes, no, b), Cost(c, yes + more, no, b), b);
    Unscaled(Cost(c, no, yes, b), Cost(c, no, yes + more, b), b);
  }

  lemma LessScaled(x: real, y: real, b: real)
    requires b > 0.0 && x < y
    ensures x / b < y / b
  {
    var d := (y - x) / b;
    assert b * d == y - x;
    PositiveFactor(b, d);
    assert y / b == x / b + d;
  }

  lemma Unscaled(x: real, y: real, b: real)
    requires b > 0.0 && x / b < y / b
    ensures x < y
  {
    assert b * (x / b) == x && b * (y / b) == y;
    assert b * (y / b - x / b) > 0.0;
    assert b * (y / b - x / b) == b * (y / b) - b * (x / b);
  }

  /** Claims and spend determine each other. */
  lemma ClaimsAreUnique(c: Curve, yes: real, no: real, claims: real, spend: real, b: real)
    requires IsExponential(c) && b > 0.0 && c.exp(yes / b) + c.exp(no / b) != 0.0
    requires Price(c, yes, no, b) != 0.0 && c.exp(spend / b) > 1.0 - Price(c, yes, no, b)
    requires Cost(c, yes + claims, no, b) == Cost(c, yes, no, b) + spend
    ensures claims == QuoteFor(c, Price(c, yes, no, b), spend, b).claims
  {
    QuoteInvertsCost(c, yes, no, spend, b);
    var q := QuoteFor(c, Price(c, yes, no, b), spend, b).claims;
    if claims < q { CostRises(c, yes + claims, q - claims, no, b); }
    if q < claims { CostRises(c, yes + q, claims - q, no, b); }
  }

  // ---------------------------------------------------------------- the reserve

  datatype Buy = Buy(onYes: bool, quantity: real)

  ghost predicate BuysOnly(buys: seq<Buy>) { forall i :: 0 <= i < |buys| ==> buys[i].quantity > 0.0 }

  /** What is held of one side. */
  function Held(buys: seq<Buy>, onYes: bool): real {
    if buys == [] then 0.0
    else Held(buys[..|buys| - 1], onYes) + (if buys[|buys| - 1].onYes == onYes then buys[|buys| - 1].quantity else 0.0)
  }

  function Ceiling(x: real): int { -(-x).Floor }

  function Subsidy(c: Curve, b: real): int { Ceiling(b * c.ln(2.0)) }

  lemma CostAtStart(c: Curve, b: real)
    requires IsExponential(c) && b > 0.0
    ensures Cost(c, 0.0, 0.0, b) == b * c.ln(2.0)
  {
    ExpZero(c);
    assert -Abs(0.0 - 0.0) / b == 0.0;
  }

  /** Between the larger liability and that plus the subsidy's bound. */
  lemma CostCoversLiability(c: Curve, yes: real, no: real, b: real)
    requires IsExponential(c) && b > 0.0
    ensures Max(yes, no) < Cost(c, yes, no, b) <= Max(yes, no) + b * c.ln(2.0)
  {
    var d := Abs(yes - no);
    var e := c.exp(-d / b);
    ExpZero(c);
    assert Positive(c, -d / b) && Inverts(c, 1.0 + e) && Inverts(c, 2.0);
    ExpReflectsOrder(c, 0.0, c.ln(1.0 + e));
    Times(b, c.ln(1.0 + e));
    if d > 0.0 {
      LessScaled(-d, 0.0, b);
      assert 0.0 / b == 0.0;
      assert Rises(c, -d / b, 0.0);
      ExpReflectsOrder(c, c.ln(1.0 + e), c.ln(2.0));
      Times(b, c.ln(2.0) - c.ln(1.0 + e));
      assert b * (c.ln(2.0) - c.ln(1.0 + e)) == b * c.ln(2.0) - b * c.ln(1.0 + e);
    } else {
      assert -d / b == 0.0;
    }
  }

  lemma Times(b: real, x: real)
    requires b > 0.0 && x > 0.0
    ensures b * x > 0.0
  {}

  lemma SubsidyBounds(c: Curve, b: real)
    requires IsExponential(c) && b > 0.0
    ensures 0.0 < b * c.ln(2.0) <= Subsidy(c, b) as real < b * c.ln(2.0) + 1.0
  {
    ExpZero(c);
    assert Inverts(c, 2.0);
    ExpReflectsOrder(c, 0.0, c.ln(2.0));
    Times(b, c.ln(2.0));
  }

  datatype Book = Book(yes: real, no: real, deposits: real, fills: nat)

  /** One buy, and what it pays. */
  method Fill(c: Curve, b: real, yes: real, no: real, buy: Buy) returns (newYes: real, newNo: real, paid: real)
    requires IsExponential(c) && b > 0.0 && buy.quantity > 0.0
    ensures newYes == yes + (if buy.onYes then buy.quantity else 0.0)
    ensures newNo == no + (if buy.onYes then 0.0 else buy.quantity)
    ensures paid == Cost(c, newYes, newNo, b) - Cost(c, yes, no, b) && paid > 0.0
  {
    newYes, newNo := yes, no;
    CostRises(c, yes, buy.quantity, no, b);
    CostRises(c, no, buy.quantity, yes, b);
    if buy.onYes {
      newYes := newYes + buy.quantity;
    } else {
      newNo := newNo + buy.quantity;
    }
    paid := Cost(c, newYes, newNo, b) - Cost(c, yes, no, b);
  }

  /**
    One path of buys. Every check the program makes on the way passes, and the deposits are the rise
    of the cost, whatever the order of the buys.
   */
  method Simulate(c: Curve, b: real, buys: seq<Buy>) returns (book: Book, passed: bool)
    requires IsExponential(c) && b > 0.0 && BuysOnly(buys)
    ensures passed
    ensures book.yes == Held(buys, true) && book.no == Held(buys, false) && book.fills == |buys|
    ensures book.deposits == Cost(c, book.yes, book.no, b) - Cost(c, 0.0, 0.0, b)
  {
    var subsidy := Subsidy(c, b);
    var yes, no, deposits := 0.0, 0.0, 0.0;
    var fills := 0;
    ghost var initial := Cost(c, 0.0, 0.0, b);
    passed := true;
    assert 0.0 <= initial <= subsidy as real by {
      SubsidyBounds(c, b);
      CostAtStart(c, b);
    }
    for i := 0 to |buys|
      invariant passed && fills == i
      invariant yes == Held(buys[..i], true) && no == Held(buys[..i], false)
      invariant deposits == Cost(c, yes, no, b) - initial
    {
      var paid;
      yes, no, paid := Fill(c, b, yes, no, buys[i]);
      deposits := deposits + paid;
      var reserve := subsidy as real + deposits;
      CostCoversLiability(c, yes, no, b);
      passed := passed && paid >= 0.0 && reserve - Max(yes, no) >= 0.0 && reserve >= deposits;
      fills := fills + 1;
      assert buys[..i + 1][..i] == buys[..i];
    }
    assert buys[..|buys|] == buys;
    book := Book(yes, no, deposits, fills);
  }

  /** The sum of what each buy pays, one after the other. */
  function Deposits(c: Curve, b: real, buys: seq<Buy>): real
    requires b > 0.0
  {
    if buys == [] then 0.0
    else
      var before := buys[..|buys| - 1];
      Deposits(c, b, before)
      + (Cost(c, Held(buys, true), Held(buys, false), b) - Cost(c, Held(before, true), Held(before, false), b))
  }

  lemma {:induction false} DepositsTelescope(c: Curve, b: real, buys: seq<Buy>)
    requires b > 0.0
    ensures Deposits(c, b, buys) == Cost(c, Held(buys, true), Held(buys, false), b) - Cost(c, 0.0, 0.0, b)
  {
    if buys != [] { DepositsTelescope(c, b, buys[..|buys| - 1]); }
  }

  /**
    After any buys, the subsidy and the deposits cover the larger liability with something to spare,
    and every refund if the market is void; the market maker never loses more than b ln 2.
   */
  lemma ReserveCovers(c: Curve, b: real, buys: seq<Buy>)
    requires IsExponential(c) && b > 0.0 && BuysOnly(buys)
    ensures var reserve := Subsidy(c, b) as real + Deposits(c, b, buys);
            && reserve > Max(Held(buys, true), Held(buys, false))
            && reserve > Deposits(c, b, buys)
            && Max(Held(buys, true), Held(buys, false)) - Deposits(c, b, buys) < b * c.ln(2.0)
  {
    DepositsTelescope(c, b, buys);
    CostAtStart(c, b);
    SubsidyBounds(c, b);
    CostCoversLiability(c, Held(buys, true), Held(buys, false), b);
  }

  /** A buy of one side far enough for `exp(-yes / b)` to be small loses all but the gap. */
  lemma LossOfOneBuy(c: Curve, b: real, yes: real, gap: real)
    requires IsExponential(c) && b > 0.0 && gap > 0.0 && yes >= 0.0
    requires c.exp(-yes / b) < c.exp(gap / b) - 1.0
    ensures yes - (Cost(c, yes, 0.0, b) - Cost(c, 0.0, 0.0, b)) > b * c.ln(2.0) - gap
  {
    CostAtStart(c, b);
    var e := c.exp(-yes / b);
    assert Positive(c, -yes / b) && Inverts(c, 1.0 + e);
    ExpReflectsOrder(c, c.ln(1.0 + e), gap / b);
    assert b * (gap / b) == gap;
    Times(b, gap / b - c.ln(1.0 + e));
    assert b * (gap / b - c.ln(1.0 + e)) == b * (gap / b) - b * c.ln(1.0 + e);
  }

  /** The quantity at which `exp(-yes / b)` is a given number below 1. */
  lemma QuantityFor(c: Curve, b: real, e: real) returns (yes: real)
    requires IsExponential(c) && b > 0.0 && 0.0 < e < 1.0
    ensures yes > 0.0 && c.exp(-yes / b) == e
  {
    var l := c.ln(e);
    ExpZero(c);
    assert Inverts(c, e);
    ExpReflectsOrder(c, l, 0.0);
    yes := -(b * l);
    assert b * l < 0.0;
    assert (-yes) / b == l;
  }

  lemma OneBuy(c: Curve, b: real, buy: Buy)
    requires b > 0.0
    ensures Held([buy], true) == (if buy.onYes then buy.quantity else 0.0)
    ensures Held([buy], false) == (if buy.onYes then 0.0 else buy.quantity)
    ensures Deposits(c, b, [buy]) == Cost(c, Held([buy], true), Held([buy], false), b) - Cost(c, 0.0, 0.0, b)
  {
    assert [buy][..0] == [];
    DepositsTelescope(c, b, [buy]);
  }

  /** The bound on the loss is the best there is: however small the gap, some path of buys loses all but the gap. */
  lemma LossBoundIsTight(c: Curve, b: real, gap: real)
    requires IsExponential(c) && b > 0.0 && gap > 0.0
    ensures exists buys ::
              && BuysOnly(buys)
              && Max(Held(buys, true), Held(buys, false)) - Deposits(c, b, buys) > b * c.ln(2.0) - gap
  {
    var m := c.exp(gap / b) - 1.0;
    ExpZero(c);
    assert gap / b > 0.0;
    assert Rises(c, 0.0, gap / b);
    var yes := QuantityFor(c, b, if m < 1.0 then m / 2.0 else 0.5);
    LossOfOneBuy(c, b, yes, gap);
    var buys := [Buy(true, yes)];
    OneBuy(c, b, buys[0]);
    assert BuysOnly(buys);
  }
}
