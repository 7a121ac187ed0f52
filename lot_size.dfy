/** The lot-size quantizer at the head of `sell_alt`: the precision taken from
    the pair's first `LOT_SIZE` filter, and the order quantity obtained by
    flooring the free balance to that many decimal places.

    The precision is computed exactly as the bot does it, as the position of the
    first '1' in the step-size string minus two. For a step written "0.001" that
    is 2, one decimal fewer than the step has, and for "1.00000000" it is -2
    (whole hundreds). The arithmetic is exact: Python's floats, `math.floor`
    and `10**p` are idealised as reals. */
module LotSize {
  import opened Wrappers

  /** One entry of a symbol's trading-rule filters. Only `LOT_SIZE` filters are
      read, and of them only the step size (a decimal string). */
  datatype Filter = Filter(filterType: string, stepSize: string)

  const LotSizeType: string := "LOT_SIZE"

  /** Python's `str.find` for one character: the index of its first occurrence,
      or -1 when it does not occur. */
  function FindChar(s: string, c: char): (r: int)
    ensures -1 <= r < |s|
    ensures r == -1 <==> c !in s
    ensures 0 <= r ==> s[r] == c && c !in s[..r]
  {
    if s == [] then -1
    else if s[0] == c then 0
    else
      var r := FindChar(s[1..], c);
      assert s == [s[0]] + s[1..];
      if r == -1 then -1
      else
        assert s[..r + 1] == [s[0]] + s[1..][..r];
        r + 1
  }

  /** The precision the bot derives from a step size (`stepSize.find('1') - 2`). */
  function StepPrecision(stepSize: string): (p: int)
    ensures p == -3 <==> '1' !in stepSize
    ensures p >= -2 ==> p + 2 < |stepSize| && stepSize[p + 2] == '1' && '1' !in stepSize[..p + 2]
  {
    FindChar(stepSize, '1') - 2
  }

  /** The precision of the first `LOT_SIZE` filter, or `None` when the pair has
      no such filter. */
  function LotSizePrecision(filters: seq<Filter>): (r: Option<int>)
    ensures r.None? <==> forall i :: 0 <= i < |filters| ==> filters[i].filterType != LotSizeType
    ensures r.Some? ==>
      exists i :: 0 <= i < |filters| && filters[i].filterType == LotSizeType
        && r.value == StepPrecision(filters[i].stepSize)
        && forall j :: 0 <= j < i ==> filters[j].filterType != LotSizeType
  {
    if filters == [] then None
    else if filters[0].filterType == LotSizeType then Some(StepPrecision(filters[0].stepSize))
    else
      var r := LotSizePrecision(filters[1..]);
      assert r.Some? ==> (exists i :: 1 <= i < |filters| && filters[i].filterType == LotSizeType
                                   && r.value == StepPrecision(filters[i].stepSize)
                                   && forall j :: 0 <= j < i ==> filters[j].filterType != LotSizeType) by {
        if r.Some? {
          var k :| 0 <= k < |filters[1..]| && filters[1..][k].filterType == LotSizeType
            && r.value == StepPrecision(filters[1..][k].stepSize)
            && forall j :: 0 <= j < k ==> filters[1..][j].filterType != LotSizeType;
          assert filters[k + 1] == filters[1..][k];
        }
      }
      r
  }

  /** The loop that fills the `ticks` dictionary: it scans the filters, records
      the precision of the first `LOT_SIZE` filter under the traded asset's name
      and stops there. Without such a filter the dictionary stays empty. */
  method ReadLotSize(filters: seq<Filter>, alt: string) returns (ticks: map<string, int>)
    ensures ticks.Keys <= {alt}
    ensures alt in ticks <==> LotSizePrecision(filters).Some?
    ensures alt in ticks ==> ticks[alt] == LotSizePrecision(filters).value
  {
    ticks := map[];
    var i := 0;
    while i < |filters|
      invariant 0 <= i <= |filters|
      invariant ticks == map[]
      invariant LotSizePrecision(filters) == LotSizePrecision(filters[i..])
    {
      if filters[i].filterType == LotSizeType {
        ticks := ticks[alt := StepPrecision(filters[i].stepSize)];
        break;
      }
      assert filters[i..][1..] == filters[i + 1..];
      i := i + 1;
    }
  }

  /** 10 raised to a natural exponent. */
  function Pow10Nat(n: nat): (r: real)
    ensures r >= 1.0
  {
    if n == 0 then 1.0 else 10.0 * Pow10Nat(n - 1)
  }

  /** Python's `10**p` for an integer exponent, which may be negative. */
  function Pow10(p: int): (r: real)
    ensures r > 0.0
    ensures p >= 0 ==> r >= 1.0
    ensures p < 0 ==> r <= 1.0
  {
    if p >= 0 then Pow10Nat(p) else 1.0 / Pow10Nat(-p)
  }

  /** `b` floored onto the grid of spacing 1/s. */
  function FloorToGrid(b: real, s: real): real
    requires s > 0.0
  {
    (b * s).Floor as real / s
  }

  /** `math.floor(balance * 10**p) / float(10**p)`. The whole balance is
      kept exactly when it is already a whole number of units of 10^-p. */
  function Quantize(balance: real, p: int): (q: real)
    ensures q == balance <==> OnGrid(balance, p)
  {
    FloorToGridKeeps(balance, Pow10(p));
    FloorToGrid(balance, Pow10(p))
  }

  /** `x` is a whole number. */
  predicate IsWhole(x: real)
  {
    x.Floor as real == x
  }

  /** `x` is a whole number of units of size 10^-p. */
  predicate OnGrid(x: real, p: int)
  {
    IsWhole(x * Pow10(p))
  }

  /** Dividing by a positive factor and multiplying back is the identity. */
  lemma DivMul(n: real, s: real)
    requires s > 0.0
    ensures (n / s) * s == n
  {
  }

  /** Multiplying by a positive factor preserves order. */
  lemma MulLeCancel(x: real, y: real, s: real)
    requires s > 0.0 && x * s <= y * s
    ensures x <= y
  {
  }

  /** Flooring onto the grid of spacing 1/s, for any positive scale s, lands
      on the grid, at most one grid step below `b`. */
  lemma FloorToGridBounds(b: real, s: real)
    requires s > 0.0
    ensures FloorToGrid(b, s) <= b
    ensures (b - FloorToGrid(b, s)) * s < 1.0
    ensures IsWhole(FloorToGrid(b, s) * s)
    ensures b >= 0.0 ==> FloorToGrid(b, s) >= 0.0
  {
    var n := (b * s).Floor as real;
    DivMul(n, s);
    assert FloorToGrid(b, s) * s == n;
    assert n.Floor as real == n;
    MulLeCancel(FloorToGrid(b, s), b, s);
    assert (b - FloorToGrid(b, s)) * s == b * s - n;
    if b >= 0.0 { MulLeCancel(0.0, FloorToGrid(b, s), s); }
  }

  /** Multiplying back by a positive factor undoes the division. */
  lemma DivBack(x: real, s: real, n: real)
    requires s > 0.0 && x * s == n
    ensures n / s == x
  {
  }

  /** A point of the grid (k units of 1/s) is its own floor. */
  lemma FloorToGridFixed(x: real, s: real, k: int)
    requires s > 0.0 && x * s == k as real
    ensures FloorToGrid(x, s) == x
  {
    var y := x * s;
    assert y.Floor == k;
    assert FloorToGrid(x, s) == y.Floor as real / s;
    DivBack(x, s, k as real);
  }

  /** Flooring onto the grid leaves `b` unchanged exactly when `b` is already
      on it. */
  lemma FloorToGridKeeps(b: real, s: real)
    requires s > 0.0
    ensures FloorToGrid(b, s) == b <==> IsWhole(b * s)
  {
    FloorToGridBounds(b, s);
    if IsWhole(b * s) {
      FloorToGridFixed(b, s, (b * s).Floor);
    }
  }

  /** Flooring twice onto the same grid is flooring once. */
  lemma FloorToGridIdempotent(b: real, s: real)
    requires s > 0.0
    ensures FloorToGrid(FloorToGrid(b, s), s) == FloorToGrid(b, s)
  {
    DivMul((b * s).Floor as real, s);
    FloorToGridFixed(FloorToGrid(b, s), s, (b * s).Floor);
  }

  /** No grid point not above `b` lies above the floor of `b`. */
  lemma FloorToGridLargest(b: real, s: real, units: int)
    requires s > 0.0 && units as real / s <= b
    ensures units as real / s <= FloorToGrid(b, s)
  {
    DivMul(units as real, s);
    MulLeCancel(units as real / s, b, 1.0);
    assert units as real <= b * s;
    var floor := (b * s).Floor;
    assert units <= floor;
    assert (units as real) / s <= (floor as real) / s;
  }

  /** The order quantity never exceeds the balance, falls short of it by less
      than one unit of 10^-p, is a whole number of such units, and is not
      negative when the balance is not. */
  lemma QuantizeBounds(balance: real, p: int)
    ensures Quantize(balance, p) <= balance
    ensures (balance - Quantize(balance, p)) * Pow10(p) < 1.0
    ensures OnGrid(Quantize(balance, p), p)
    ensures balance >= 0.0 ==> Quantize(balance, p) >= 0.0
  {
    FloorToGridBounds(balance, Pow10(p));
  }

  /** Quantizing an already quantized amount changes nothing. */
  lemma QuantizeIdempotent(balance: real, p: int)
    ensures Quantize(Quantize(balance, p), p) == Quantize(balance, p)
  {
    FloorToGridIdempotent(balance, Pow10(p));
  }

  /** The quantity is the largest amount on the grid that the balance covers:
      every whole number of units of 10^-p not above the balance is at most it. */
  lemma QuantizeIsLargest(balance: real, p: int, units: int)
    requires units as real / Pow10(p) <= balance
    ensures units as real / Pow10(p) <= Quantize(balance, p)
  {
    FloorToGridLargest(balance, Pow10(p), units);
  }

  /** n zero characters. */
  function Zeros(n: nat): (z: string)
    ensures |z| == n && '1' !in z
  {
    if n == 0 then "" else "0" + Zeros(n - 1)
  }

  /** A decimal step size 10^-(k+1), written "0.", k zeros, "1" and any
      trailing zeros, yields precision k rather than k + 1. */
  lemma DecimalStepPrecision(k: nat, trailing: nat)
    ensures StepPrecision("0." + Zeros(k) + "1" + Zeros(trailing)) == k
  {
    var s := "0." + Zeros(k) + "1" + Zeros(trailing);
    var head := "0." + Zeros(k);
    assert s == head + "1" + Zeros(trailing);
    assert s[k + 2] == '1';
    assert '1' !in head;
    var r := FindChar(s, '1');
    assert s[..k + 2] == head;
    assert r == k + 2;
  }

  /** The step sizes the exchange publishes for common pairs, read the way the
      bot reads them. */
  lemma StepPrecisionExamples()
    ensures StepPrecision("0.001") == 2
    ensures StepPrecision("0.00100000") == 2
    ensures StepPrecision("0.00000001") == 7
    ensures StepPrecision("1.00000000") == -2
  {
    DecimalStepPrecision(2, 0);
    assert "0." + Zeros(2) + "1" + Zeros(0) == "0.001";
    DecimalStepPrecision(2, 5);
    assert "0." + Zeros(2) + "1" + Zeros(5) == "0.00100000";
    DecimalStepPrecision(7, 0);
    assert "0." + Zeros(7) + "1" + Zeros(0) == "0.00000001";
    assert "1.00000000"[0] == '1';
  }

  /** Quantizing 0.123456 to two decimals gives 0.12. */
  lemma QuantizeToCents()
    ensures Quantize(0.123456, 2) == 0.12
  {
    assert Pow10Nat(1) == 10.0;
    assert Pow10(2) == 100.0;
    assert FloorToGrid(0.123456, 100.0) == 0.12 by {
      assert 0.123456 * 100.0 == 12.3456;
      assert (12.3456).Floor == 12;
    }
  }

  /** Quantizing to precision -2 floors to whole hundreds. */
  lemma QuantizeToHundreds()
    ensures Quantize(150.0, -2) == 100.0
    ensures Quantize(99.0, -2) == 0.0
  {
    assert Pow10Nat(1) == 10.0;
    assert Pow10(-2) == 0.01;
    assert FloorToGrid(150.0, 0.01) == 100.0 by {
      assert 150.0 * 0.01 == 1.5;
      assert (1.5).Floor == 1;
    }
    assert FloorToGrid(99.0, 0.01) == 0.0 by {
      assert 99.0 * 0.01 == 0.99;
      assert (0.99).Floor == 0;
    }
  }

  /** With the step "0.001" a balance of 0.123456 is sold as 0.12, not 0.123:
      the quantity lies on a grid ten times coarser than the step, and what is
      left unsold (0.003456) exceeds one step. */
  lemma CoarserThanStep()
    ensures Quantize(0.123456, StepPrecision("0.001")) == 0.12
    ensures 0.123456 - Quantize(0.123456, StepPrecision("0.001")) >= 0.001
  {
    StepPrecisionExamples();
    QuantizeToCents();
  }

  /** With the step "1.00000000" quantities are floored to whole hundreds: a
      balance of 150 sells 100, and a balance of 99 yields a zero quantity,
      which the bot does not refuse. */
  lemma WholeUnitStepFloorsToHundreds()
    ensures Quantize(150.0, StepPrecision("1.00000000")) == 100.0
    ensures Quantize(99.0, StepPrecision("1.00000000")) == 0.0
  {
    StepPrecisionExamples();
    QuantizeToHundreds();
  }

  /** Quantizing a whole balance to seven decimals leaves it unchanged. */
  lemma QuantizeWholeToSevenDecimals()
    ensures Quantize(2.0, 7) == 2.0
  {
    assert Pow10Nat(1) == 10.0;
    assert Pow10Nat(3) == 1000.0;
    assert Pow10Nat(5) == 100000.0;
    assert Pow10(7) == 10000000.0;
    FloorToGridFixed(2.0, 10000000.0, 20000000);
  }

  /** With the step "0.00000001" a balance of 2 is sold in full. */
  lemma FineStepKeepsWholeBalance()
    ensures Quantize(2.0, StepPrecision("0.00000001")) == 2.0
  {
    StepPrecisionExamples();
    QuantizeWholeToSevenDecimals();
  }

  /** A zero balance gives a zero quantity at every precision. */
  lemma QuantizeZero(p: int)
    ensures Quantize(0.0, p) == 0.0
  {
    QuantizeBounds(0.0, p);
  }
}
