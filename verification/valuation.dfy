/** The valuation engine: the total profit or loss of a request's positions
    at its closing price, with exact real arithmetic. */
module Valuation {
  import opened CalcSchema

  /** The absolute value of a price difference. */
  function Abs(x: int): nat {
    if x < 0 then -x else x
  }

  /** The lot after the pair's spread: AUDCADc trades at 73% of the lot,
      every other pair at the full lot. */
  function SpreadLot(pair: Pair, lot: real): (r: real)
    ensures lot > 0.0 ==> 0.0 < r <= lot
    ensures lot == 0.0 <==> r == 0.0
  {
    match pair
    case AUDCADc => 0.73 * lot
    case _ => lot
  }

  /** How far the price moved in the position's favour: up for a buy, down
      for a sell. */
  function PriceGain(d: Direction, open: int, close: int): int {
    match d
    case Buy => close - open
    case Sell => open - close
  }

  /** -1 when the price moved against the position, 1 otherwise (also when
      it did not move at all). */
  function DirectionValue(d: Direction, open: int, close: int): (s: int)
    ensures s == 1 || s == -1
    ensures s == -1 <==> PriceGain(d, open, close) < 0
    ensures s * Abs(open - close) == PriceGain(d, open, close)
    ensures open == close ==> s == 1
  {
    if (d == Buy && close < open) || (d == Sell && close > open) then -1 else 1
  }

  /** One position's profit or loss at the closing price. */
  function SingleValue(pair: Pair, close: int, p: Position): (v: real)
    ensures v == PriceGain(p.direction, p.open, close) as real * SpreadLot(pair, p.lot)
  {
    var distance := Abs(p.open - close) as real;
    var sign := DirectionValue(p.direction, p.open, close);
    assert (sign * Abs(p.open - close)) as real == sign as real * distance;
    distance * SpreadLot(pair, p.lot) * sign as real
  }

  /** The value of each position, in order (the `map`). */
  function Values(pair: Pair, close: int, ps: seq<Position>): (vs: seq<real>)
    ensures |vs| == |ps|
    ensures forall i :: 0 <= i < |ps| ==> vs[i] == SingleValue(pair, close, ps[i])
  {
    if ps == [] then [] else Values(pair, close, ps[..|ps| - 1]) + [SingleValue(pair, close, ps[|ps| - 1])]
  }

  /** The sum of the values, added left to right from 0 (the `reduce`). */
  function Reduce(vs: seq<real>): (sum: real)
    ensures vs == [] ==> sum == 0.0
    ensures |vs| == 1 ==> sum == vs[0]
  {
    if vs == [] then 0.0 else Reduce(vs[..|vs| - 1]) + vs[|vs| - 1]
  }

  /** `calculateTotalValue`: the total profit or loss of a valid request. */
  function TotalValue(req: CalcRequest): (total: real)
    requires ValidRequest(req)
    ensures req.positions == [] ==> total == 0.0
    ensures |req.positions| == 1 ==> total == SingleValue(req.pair, req.close, req.positions[0])
    ensures total == GainSum(req.pair, req.close, req.positions)
  {
    SumClosedForm(req.pair, req.close, req.positions);
    Reduce(Values(req.pair, req.close, req.positions))
  }

  /** The sum of a concatenation is the sum of the parts. */
  lemma {:induction false} ReduceAppend(a: seq<real>, b: seq<real>)
    ensures Reduce(a + b) == Reduce(a) + Reduce(b)
  {
    if b == [] {
      assert a + b == a;
    } else {
      var n := |b| - 1;
      assert (a + b)[..|a + b| - 1] == a + b[..n];
      assert (a + b)[|a + b| - 1] == b[n];
      ReduceAppend(a, b[..n]);
    }
  }

  /** Valuing a concatenation values each part. */
  lemma ValuesAppend(pair: Pair, close: int, a: seq<Position>, b: seq<Position>)
    ensures Values(pair, close, a + b) == Values(pair, close, a) + Values(pair, close, b)
  {
  }

  /** The total of positions split in two is the sum of the parts' totals. */
  lemma SumAppend(pair: Pair, close: int, a: seq<Position>, b: seq<Position>)
    ensures Reduce(Values(pair, close, a + b)) == Reduce(Values(pair, close, a)) + Reduce(Values(pair, close, b))
  {
    ValuesAppend(pair, close, a, b);
    ReduceAppend(Values(pair, close, a), Values(pair, close, b));
  }

  /** Additivity: the total of two lists of positions together is the sum of
      their separate totals, for the same pair and closing price. */
  lemma TotalAdditive(req: CalcRequest, a: seq<Position>, b: seq<Position>)
    requires ValidRequest(req) && req.positions == a + b
    ensures ValidRequest(CalcRequest(req.pair, req.close, a))
    ensures ValidRequest(CalcRequest(req.pair, req.close, b))
    ensures TotalValue(req) == TotalValue(CalcRequest(req.pair, req.close, a)) + TotalValue(CalcRequest(req.pair, req.close, b))
  {
    forall i | 0 <= i < |a|
      ensures ValidPosition(a[i])
    {
      assert a[i] == req.positions[i];
    }
    forall i | 0 <= i < |b|
      ensures ValidPosition(b[i])
    {
      assert b[i] == req.positions[|a| + i];
    }
    SumAppend(req.pair, req.close, a, b);
  }

  /** Rearranging positions does not change their total. */
  lemma {:induction false} SumPermutation(pair: Pair, close: int, ps: seq<Position>, qs: seq<Position>)
    requires multiset(ps) == multiset(qs)
    ensures Reduce(Values(pair, close, ps)) == Reduce(Values(pair, close, qs))
    decreases |ps|
  {
    if ps == [] {
      assert |qs| == |multiset(qs)| == 0;
    } else {
      var n := |ps| - 1;
      var x := ps[n];
      assert ps == ps[..n] + [x];
      assert x in multiset(qs);
      var j :| 0 <= j < |qs| && qs[j] == x;
      var rest := qs[..j] + qs[j + 1..];
      assert qs == qs[..j] + [x] + qs[j + 1..];
      assert multiset(rest) == multiset(ps[..n]) by {
        assert multiset(qs) == multiset(qs[..j]) + multiset{x} + multiset(qs[j + 1..]);
        assert multiset(rest) == multiset(qs[..j]) + multiset(qs[j + 1..]);
        assert multiset(ps) == multiset(ps[..n]) + multiset{x};
        assert multiset(rest) == multiset(qs) - multiset{x};
        assert multiset(ps[..n]) == multiset(ps) - multiset{x};
      }
      SumPermutation(pair, close, ps[..n], rest);
      SumAppend(pair, close, ps[..n], [x]);
      SumAppend(pair, close, qs[..j] + [x], qs[j + 1..]);
      SumAppend(pair, close, qs[..j], [x]);
      SumAppend(pair, close, qs[..j], qs[j + 1..]);
    }
  }

  /** Order independence: a request whose positions are a rearrangement of
      another's, for the same pair and closing price, has the same total. */
  lemma TotalOrderIndependent(req: CalcRequest, qs: seq<Position>)
    requires ValidRequest(req) && multiset(qs) == multiset(req.positions)
    ensures ValidRequest(CalcRequest(req.pair, req.close, qs))
    ensures TotalValue(CalcRequest(req.pair, req.close, qs)) == TotalValue(req)
  {
    forall i | 0 <= i < |qs|
      ensures ValidPosition(qs[i])
    {
      assert qs[i] in multiset(req.positions);
    }
    SumPermutation(req.pair, req.close, qs, req.positions);
  }

  /** The sign marks the losing positions: for a valid position, the sign
      is -1 exactly when the position is worth less than nothing, and 1
      exactly when it is worth nothing or more. */
  lemma SignMarksLoss(pair: Pair, close: int, p: Position)
    requires ValidPosition(p)
    ensures DirectionValue(p.direction, p.open, close) == -1 <==> SingleValue(pair, close, p) < 0.0
    ensures DirectionValue(p.direction, p.open, close) == 1 <==> SingleValue(pair, close, p) >= 0.0
  {
    var g := PriceGain(p.direction, p.open, close) as real;
    var l := SpreadLot(pair, p.lot);
    assert l > 0.0;
    assert g < 0.0 ==> g * l < 0.0;
    assert g >= 0.0 ==> g * l >= 0.0;
  }

  /** The other direction. */
  function Opposite(d: Direction): Direction {
    match d
    case Buy => Sell
    case Sell => Buy
  }

  /** Sign symmetry: the opposite position is worth the negation, and a
      position whose price did not move is worth nothing either way. */
  lemma OppositeNegates(pair: Pair, close: int, p: Position)
    ensures SingleValue(pair, close, p.(direction := Opposite(p.direction))) == -SingleValue(pair, close, p)
    ensures p.open == close ==> SingleValue(pair, close, p) == 0.0
  {
  }

  /** Linearity in lot: scaling a position's lot scales its value alike. */
  lemma LotLinear(pair: Pair, close: int, p: Position, k: real)
    ensures SingleValue(pair, close, p.(lot := k * p.lot)) == k * SingleValue(pair, close, p)
  {
  }

  /** Spread scaling: under AUDCADc a position is worth 0.73 times what it
      is worth under EURUSDc. */
  lemma SpreadScaling(close: int, p: Position)
    ensures SingleValue(AUDCADc, close, p) == 0.73 * SingleValue(EURUSDc, close, p)
  {
  }

  /** Spread scaling carries over to the total: the same positions and
      closing price are worth 0.73 times as much under AUDCADc. */
  lemma {:induction false} SumSpreadScaling(close: int, ps: seq<Position>)
    ensures Reduce(Values(AUDCADc, close, ps)) == 0.73 * Reduce(Values(EURUSDc, close, ps))
  {
    if ps != [] {
      var n := |ps| - 1;
      SumSpreadScaling(close, ps[..n]);
      SpreadScaling(close, ps[n]);
    }
  }

  /** The total is the sum of each position's closed-form value: the price
      gain in its direction times its spread-adjusted lot. */
  lemma {:induction false} SumClosedForm(pair: Pair, close: int, ps: seq<Position>)
    ensures Reduce(Values(pair, close, ps)) == GainSum(pair, close, ps)
  {
    if ps != [] {
      SumClosedForm(pair, close, ps[..|ps| - 1]);
    }
  }

  /** Σ over the positions of the price gain times the spread-adjusted lot. */
  function GainSum(pair: Pair, close: int, ps: seq<Position>): real {
    if ps == [] then 0.0 else
      var p := ps[|ps| - 1];
      GainSum(pair, close, ps[..|ps| - 1]) + PriceGain(p.direction, p.open, close) as real * SpreadLot(pair, p.lot)
  }

  /** The worked examples, with prices in the smallest quoted unit. */
  lemma WorkedExamples()
    ensures TotalValue(CalcRequest(EURUSDc, 90800, [Position(Buy, 1.0, 90400)])) == 400.0
    ensures TotalValue(CalcRequest(EURUSDc, 90400, [Position(Buy, 1.0, 90800)])) == -400.0
    ensures TotalValue(CalcRequest(EURUSDc, 90800, [Position(Sell, 2.0, 90400)])) == -800.0
    ensures TotalValue(CalcRequest(AUDCADc, 90800, [Position(Buy, 1.0, 90400)])) == 292.0
    ensures TotalValue(CalcRequest(EURUSDc, 90800, [Position(Buy, 1.0, 90400), Position(Sell, 2.0, 90400)])) == -400.0
    ensures TotalValue(CalcRequest(AUDCADc, 90800, [])) == 0.0
  {
    var two := [Position(Buy, 1.0, 90400), Position(Sell, 2.0, 90400)];
    assert two[..1] == [two[0]];
    assert Values(EURUSDc, 90800, two) == [400.0, -800.0];
  }
}
