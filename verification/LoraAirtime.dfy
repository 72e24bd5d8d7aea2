/** LoRa time on air: integer block counts times a real symbol time. */
module LoraAirtime {
  import opened Prelude

  datatype Modem = Modem(
    spreading: nat, bandwidth: real, codingRate: int, preamble: int, explicitHeader: bool, crc: bool)

  const DE_THRESHOLD_MS := 16.0

  function SymbolTime(m: Modem): real
    requires m.bandwidth != 0.0
  {
    Pow2(m.spreading) as real / m.bandwidth * 1000.0
  }

  predicate LowDataRate(m: Modem)
    requires m.bandwidth != 0.0
  {
    SymbolTime(m) > DE_THRESHOLD_MS
  }

  /** Python's n // d. */
  function FloorDiv(n: int, d: int): int
    requires d != 0
  {
    if d > 0 then n / d else (-n) / (-d)
  }

  function Numerator(payload: nat, m: Modem): int {
    8 * payload - 4 * m.spreading + 28 + (if m.crc then 16 else 0) - (if m.explicitHeader then 0 else 20)
  }

  /** The radio gives up two bits of every symbol at low data rates. */
  function BitsPerSymbol(m: Modem): int
    requires m.bandwidth != 0.0
  {
    m.spreading - if LowDataRate(m) then 2 else 0
  }

  function Denominator(m: Modem): int
    requires m.bandwidth != 0.0
  {
    4 * BitsPerSymbol(m)
  }

  function Blocks(numerator: int, denominator: int): int
    requires numerator > 0 ==> denominator != 0
  {
    if numerator > 0 then
      var blocks := -FloorDiv(-numerator, denominator);
      if blocks > 0 then blocks else 0
    else 0
  }

  /** payload_symbols; None where its division by zero raises. */
  function PayloadSymbols(payload: nat, m: Modem): Option<int>
    requires m.bandwidth != 0.0
  {
    var (n, d) := (Numerator(payload, m), Denominator(m));
    if n > 0 && d == 0 then None else Some(8 + Blocks(n, d) * (m.codingRate + 4))
  }

  /** airtime_ms; None where a division by zero raises. */
  function Airtime(payload: nat, m: Modem): Option<real> {
    if m.bandwidth == 0.0 then None
    else
      var symbols := PayloadSymbols(payload, m);
      if symbols.None? then None else Some(Times(symbols.value as real + m.preamble as real + 4.25, SymbolTime(m)))
  }

  function Times(a: real, b: real): real { a * b }

  /** A real bandwidth, coding rates 4/5 to 4/8; any spreading factor. */
  predicate Sensible(m: Modem) {
    m.bandwidth > 0.0 && 1 <= m.codingRate <= 4 && m.preamble >= 0
  }

  /** A modem LoRa has: at least three bits per symbol, too. */
  predicate Usable(m: Modem) {
    Sensible(m) && m.spreading >= 3
  }

  // ---------------------------------------------------------------------------------------

  /** The block count is the least that holds all the bits. */
  lemma BlocksIsCeiling(n: int, d: int)
    requires d > 0
    ensures var b := Blocks(n, d);
            b >= 0 && n <= b * d && forall c: nat | n <= c * d :: b <= c
  {
    var b := Blocks(n, d);
    if n > 0 {
      var q := (-n) / d;
      assert q * d <= -n < q * d + d;
      forall c: nat | n <= c * d ensures b <= c {
        if c < b { Scale(c, b - 1, d); }
      }
    }
  }

  lemma Scale(a: int, b: int, d: int)
    requires a <= b && d >= 0
    ensures a * d <= b * d
  {}

  lemma BlocksMonotone(n1: int, d1: int, n2: int, d2: int)
    requires n1 <= n2 && 0 < d2 <= d1
    ensures Blocks(n1, d1) <= Blocks(n2, d2)
  {
    var b := Blocks(n2, d2);
    BlocksIsCeiling(n1, d1);
    BlocksIsCeiling(n2, d2);
    assert b * d2 <= b * d1 by { Scale(d2, d1, b); }
  }

  lemma ProductMonotone(a1: real, a2: real, t1: real, t2: real)
    requires 0.0 <= a1 <= a2 && 0.0 <= t1 <= t2
    ensures Times(a1, t1) <= Times(a2, t2)
  {
    assert a1 * t1 <= a2 * t1;
    assert a2 * t1 <= a2 * t2;
  }

  lemma SymbolTimePositive(m: Modem)
    requires m.bandwidth > 0.0
    ensures SymbolTime(m) > 0.0 && Times(SymbolTime(m), m.bandwidth) == Pow2(m.spreading) as real * 1000.0
  {
    var q := Pow2(m.spreading) as real / m.bandwidth;
    assert q * m.bandwidth == Pow2(m.spreading) as real;
    assert q > 0.0;
    assert SymbolTime(m) * m.bandwidth == q * m.bandwidth * 1000.0;
  }

  /** The blocks of a transmission; none where the division would raise. */
  function BlocksOf(payload: nat, m: Modem): int
    requires m.bandwidth != 0.0
  {
    var (n, d) := (Numerator(payload, m), Denominator(m));
    if n > 0 && d == 0 then 0 else Blocks(n, d)
  }

  /** No symbol carries a bit: the quotient is negative and counts as 0. */
  lemma NoBlocks(payload: nat, m: Modem)
    requires m.bandwidth != 0.0 && Denominator(m) <= 0
    ensures BlocksOf(payload, m) == 0
  {
    var (n, d) := (Numerator(payload, m), Denominator(m));
    if n > 0 && d < 0 { assert FloorDiv(-n, d) == n / (-d); }
  }

  lemma BlocksNotNegative(payload: nat, m: Modem)
    requires m.bandwidth != 0.0
    ensures BlocksOf(payload, m) >= 0
  {
    if Denominator(m) > 0 {
      BlocksIsCeiling(Numerator(payload, m), Denominator(m));
    } else {
      NoBlocks(payload, m);
    }
  }

  /** Every symbol of a transmission with that many blocks, preamble included. */
  function Total(blocks: int, codingRate: int, preamble: int): real {
    (8 + blocks * (codingRate + 4)) as real + preamble as real + 4.25
  }

  lemma AirtimeIs(payload: nat, m: Modem)
    requires Sensible(m) && Defined(payload, m)
    ensures Airtime(payload, m).value == Times(Total(BlocksOf(payload, m), m.codingRate, m.preamble), SymbolTime(m))
    ensures BlocksOf(payload, m) >= 0
  {
    BlocksNotNegative(payload, m);
    assert PayloadSymbols(payload, m) == Some(8 + BlocksOf(payload, m) * (m.codingRate + 4));
  }

  /** There is a bandwidth, and bits to a symbol if there are bits to send. */
  predicate Defined(payload: nat, m: Modem) {
    m.bandwidth != 0.0 && (Numerator(payload, m) > 0 ==> BitsPerSymbol(m) != 0)
  }

  /** When the calculation raises: no bandwidth, or bits to send with no bits to a symbol. */
  lemma AirtimeRaisesIff(payload: nat, m: Modem)
    ensures Airtime(payload, m).None? <==>
      || m.bandwidth == 0.0
      || (Numerator(payload, m) > 0
          && ((m.spreading == 0 && !LowDataRate(m)) || (m.spreading == 2 && LowDataRate(m))))
  {
    if m.bandwidth != 0.0 {
      assert Denominator(m) == 0 <==> m.spreading == if LowDataRate(m) then 2 else 0;
    }
  }

  lemma TotalMonotone(b1: int, b2: int, codingRate: int, preamble: int)
    requires 0 <= b1 <= b2 && codingRate >= 1 && preamble >= 0
    ensures 12.25 <= Total(b1, codingRate, preamble) <= Total(b2, codingRate, preamble)
  {
    Scale(0, b1, codingRate + 4);
    Scale(b1, b2, codingRate + 4);
  }

  /** At most k - 1 blocks more than k times as many. */
  predicate Within(b: int, b': int, k: int) {
    b <= k * b' + (k - 1)
  }

  lemma BlockSymbols(b: int, b': int, k: int, c: int)
    requires k >= 1 && b' >= 0 && 0 <= b && Within(b, b', k) && 0 <= c <= 8
    ensures 0 <= b * c <= k * (b' * c) + 8 * (k - 1)
  {
    Scale(0, b, c);
    Scale(b, k * b' + (k - 1), c);
    assert (k * b' + (k - 1)) * c == k * (b' * c) + (k - 1) * c;
    Scale(c, 8, k - 1);
    assert (k - 1) * c == c * (k - 1);
  }

  /** The symbols besides the blocks only help: there are more than 8 of them. */
  lemma SymbolsAtMost(x: int, x': int, k: int, preamble: int)
    requires k >= 1 && preamble >= 0 && x <= k * x' + 8 * (k - 1)
    ensures (8 + x) as real + preamble as real + 4.25 <= Times(k as real, (8 + x') as real + preamble as real + 4.25)
  {
    var y := 8 + x' + preamble;
    Scale(0, preamble, k - 1);
    assert k * y == k * x' + 8 * k + (preamble + preamble * (k - 1));
    assert 8 + x + preamble <= k * y;
    WholePart(k, y);
  }

  lemma WholePart(k: int, y: int)
    requires k >= 1
    ensures (k * y) as real + 4.25 <= Times(k as real, y as real + 4.25)
  {
    assert (k * y) as real == k as real * y as real;
    assert k as real * (y as real + 4.25) == k as real * y as real + k as real * 4.25;
  }

  lemma TotalAtMost(b: int, b': int, k: int, codingRate: int, preamble: int)
    requires k >= 1 && b' >= 0 && 0 <= b && Within(b, b', k) && 1 <= codingRate <= 4 && preamble >= 0
    ensures 0.0 <= Total(b, codingRate, preamble)
    ensures Total(b, codingRate, preamble) <= Times(k as real, Total(b', codingRate, preamble))
  {
    BlockSymbols(b, b', k, codingRate + 4);
    SymbolsAtMost(b * (codingRate + 4), b' * (codingRate + 4), k, preamble);
  }

  /** A longer payload never takes less time. */
  lemma PayloadMonotone(p1: nat, p2: nat, m: Modem)
    requires Sensible(m) && p1 <= p2 && Defined(p1, m) && Defined(p2, m)
    ensures Airtime(p1, m).value <= Airtime(p2, m).value
  {
    AirtimeIs(p1, m);
    AirtimeIs(p2, m);
    var (b1, b2) := (BlocksOf(p1, m), BlocksOf(p2, m));
    if Denominator(m) > 0 {
      BlocksMonotone(Numerator(p1, m), Denominator(m), Numerator(p2, m), Denominator(m));
    } else {
      NoBlocks(p1, m);
      NoBlocks(p2, m);
    }
    TotalMonotone(b1, b2, m.codingRate, m.preamble);
    SymbolTimePositive(m);
    var (fewer, more) := (Total(b1, m.codingRate, m.preamble), Total(b2, m.codingRate, m.preamble));
    ProductMonotone(fewer, more, SymbolTime(m), SymbolTime(m));
  }

  // ---------------------------------------------------------------------------------------
  // Spreading
  // ---------------------------------------------------------------------------------------

  lemma HalfBound(n: int, s: int, t: int, b: int)
    requires 1 <= s && t <= s + 1 && b >= 0 && n - 4 <= b * (4 * t)
    ensures n <= (2 * b + 1) * (4 * s)
  {
    Scale(4 * t, 4 * (s + 1), b);
    Scale(1, s, b);
    var product := b * s;
    assert (2 * b + 1) * (4 * s) == 8 * product + 4 * s;
    assert b * (4 * (s + 1)) == 4 * product + 4 * b;
  }

  /** One step of spreading takes away at most about half the blocks. */
  lemma BlocksHalve(n: int, s: int, t: int)
    requires 1 <= s && 1 <= t <= s + 1
    ensures Blocks(n, 4 * s) <= 2 * Blocks(n - 4, 4 * t) + 1
  {
    var b := Blocks(n - 4, 4 * t);
    BlocksIsCeiling(n - 4, 4 * t);
    HalfBound(n, s, t, b);
    BlocksIsCeiling(n, 4 * s);
    var c: nat := 2 * b + 1;
    assert n <= c * (4 * s);
  }

  /** j steps divide the blocks by at most about 2^j, wherever between the low-data-rate switch falls. */
  lemma {:induction false} BlocksShrink(n: int, s: int, t: int, j: nat)
    requires 1 <= s && 1 <= t <= s + j
    ensures Within(Blocks(n, 4 * s), Blocks(n - 4 * j, 4 * t), Pow2(j))
    decreases j
  {
    if j == 0 {
      BlocksMonotone(n, 4 * s, n, 4 * t);
    } else {
      BlocksShrink(n - 4, s + 1, t, j - 1);
      BlocksHalve(n, s, s + 1);
      var (b, p) := (Blocks(n - 4 * j, 4 * t), Pow2(j - 1));
      assert Pow2(j) * b == 2 * (p * b);
    }
  }

  lemma {:induction false} Pow2Sum(a: nat, j: nat)
    ensures Pow2(a + j) == Pow2(a) * Pow2(j)
  {
    if j > 0 {
      Pow2Sum(a, j - 1);
      TwiceProduct(Pow2(a), Pow2(j - 1));
    }
  }

  lemma TwiceProduct(x: int, y: int)
    ensures x * (2 * y) == 2 * (x * y)
  {}

  lemma SymbolScales(m: Modem, j: nat)
    requires m.bandwidth > 0.0
    ensures SymbolTime(m.(spreading := m.spreading + j)) == Times(Pow2(j) as real, SymbolTime(m))
  {
    Pow2SumReal(m.spreading, j);
    SymbolTimeOf(Pow2(m.spreading) as real, Pow2(j) as real, m.bandwidth);
  }

  lemma Pow2SumReal(a: nat, j: nat)
    ensures Pow2(a + j) as real == Times(Pow2(a) as real, Pow2(j) as real)
  {
    Pow2Sum(a, j);
    RealProduct(Pow2(a), Pow2(j));
  }

  lemma RealProduct(a: int, b: int)
    ensures (a * b) as real == Times(a as real, b as real)
  {}

  lemma SymbolTimeOf(p: real, k: real, w: real)
    requires w > 0.0
    ensures Times(p, k) / w * 1000.0 == Times(k, p / w * 1000.0)
  {
    Quotients(p, k, w);
  }

  lemma Quotients(p: real, k: real, w: real)
    requires w > 0.0
    ensures p * k / w * 1000.0 == Times(k, p / w * 1000.0)
  {
    var q := p / w;
    assert q * w == p;
    assert (q * k) * w == p * k;
    assert p * k / w == q * k;
  }

  /** Fewer bits to a symbol can only come from the switch, and a slower symbol never switches it off. */
  lemma SlowerKeepsSwitch(m: Modem, j: nat)
    requires m.bandwidth > 0.0 && LowDataRate(m)
    ensures LowDataRate(m.(spreading := m.spreading + j))
  {
    SymbolScales(m, j);
    SymbolTimePositive(m);
    AtLeastOnce(Pow2(j) as real, SymbolTime(m));
  }

  lemma AtLeastOnce(k: real, t: real)
    requires k >= 1.0 && t > 0.0
    ensures Times(k, t) >= t
  {}

  lemma ShrunkAre(payload: nat, m: Modem, j: nat)
    requires m.bandwidth > 0.0 && Denominator(m) > 0 && Denominator(m.(spreading := m.spreading + j)) > 0
    ensures var slower := m.(spreading := m.spreading + j);
            && BlocksOf(payload, m) == Blocks(Numerator(payload, m), 4 * BitsPerSymbol(m))
            && BlocksOf(payload, slower) == Blocks(Numerator(payload, m) - 4 * j, 4 * BitsPerSymbol(slower))
            && 1 <= BitsPerSymbol(m) && 1 <= BitsPerSymbol(slower) <= BitsPerSymbol(m) + j
  {
    if LowDataRate(m) { SlowerKeepsSwitch(m, j); }
  }

  lemma BlocksOfShrink(payload: nat, m: Modem, j: nat)
    requires m.bandwidth > 0.0 && Denominator(m) > 0 && Denominator(m.(spreading := m.spreading + j)) > 0
    ensures Within(BlocksOf(payload, m), BlocksOf(payload, m.(spreading := m.spreading + j)), Pow2(j))
  {
    var slower := m.(spreading := m.spreading + j);
    var (n, s, t) := (Numerator(payload, m), BitsPerSymbol(m), BitsPerSymbol(slower));
    ShrunkAre(payload, m, j);
    BlocksShrink(n, s, t, j);
  }

  lemma FewerBlocks(payload: nat, m: Modem, j: nat)
    requires m.bandwidth > 0.0 && Defined(payload, m)
    requires Defined(payload, m.(spreading := m.spreading + j))
    ensures Within(BlocksOf(payload, m), BlocksOf(payload, m.(spreading := m.spreading + j)), Pow2(j))
  {
    var slower := m.(spreading := m.spreading + j);
    var (d, d') := (Denominator(m), Denominator(slower));
    BlocksNotNegative(payload, slower);
    if d <= 0 {
      NoBlocks(payload, m);
      WithinAnyway(0, BlocksOf(payload, slower), Pow2(j));
    } else if d' > 0 {
      BlocksOfShrink(payload, m, j);
    } else {
      FewBits(payload, m, j);
      WithinAnyway(BlocksOf(payload, m), BlocksOf(payload, slower), Pow2(j));
    }
  }

  lemma WithinAnyway(b: int, b': int, k: int)
    requires k >= 1 && b' >= 0 && b <= k - 1
    ensures Within(b, b', k)
  {
    Scale(0, b', k);
  }

  /** The one step that leaves no bits to a symbol, and is defined only when there is nothing to send. */
  lemma FewBits(payload: nat, m: Modem, j: nat)
    requires m.bandwidth > 0.0 && Defined(payload, m.(spreading := m.spreading + j))
    requires Denominator(m) > 0 >= Denominator(m.(spreading := m.spreading + j))
    ensures BlocksOf(payload, m) <= Pow2(j) - 1
  {
    var slower := m.(spreading := m.spreading + j);
    if LowDataRate(m) { SlowerKeepsSwitch(m, j); }
    assert m.spreading == 1 && j == 1 && Denominator(m) == 4 && Denominator(slower) == 0;
    AirtimeRaisesIff(payload, slower);
    assert Numerator(payload, m) <= 4;
    var one := j;
    assert Pow2(one) == 2 * Pow2(one - 1);
    BlocksIsCeiling(Numerator(payload, m), 4);
    var c: nat := 1;
    assert Numerator(payload, m) <= c * 4;
  }

  /** At one bandwidth a higher spreading factor never takes less time, though it needs fewer symbols. */
  lemma SpreadingMonotone(payload: nat, m: Modem, spreading: nat)
    requires Sensible(m) && m.spreading <= spreading
    requires Defined(payload, m) && Defined(payload, m.(spreading := spreading))
    ensures Airtime(payload, m).value <= Airtime(payload, m.(spreading := spreading)).value
  {
    var j: nat := spreading - m.spreading;
    var slower := m.(spreading := spreading);
    AirtimeIs(payload, m);
    AirtimeIs(payload, slower);
    FewerBlocks(payload, m, j);
    SymbolScales(m, j);
    SymbolTimePositive(m);
    var (x, x') := (Total(BlocksOf(payload, m), m.codingRate, m.preamble),
                    Total(BlocksOf(payload, slower), m.codingRate, m.preamble));
    TotalAtMost(BlocksOf(payload, m), BlocksOf(payload, slower), Pow2(j), m.codingRate, m.preamble);
    Scaled(x, x', Pow2(j) as real, SymbolTime(m));
  }

  lemma Scaled(x: real, x': real, k: real, t: real)
    requires 0.0 <= x <= Times(k, x') && t >= 0.0
    ensures Times(x, t) <= Times(x', Times(k, t))
  {
    ProductMonotone(x, Times(k, x'), t, t);
    assert k * x' * t == x' * (k * t);
  }

  // ---------------------------------------------------------------------------------------
  // Bandwidth
  // ---------------------------------------------------------------------------------------

  lemma NotFaster(t: real, w: real, t': real, w': real)
    requires 0.0 < w <= w' && Times(t, w) == Times(t', w') && t > 0.0 && t' > 0.0
    ensures t' <= t
  {}

  lemma SameWork(m: Modem, wider: real)
    requires 0.0 < m.bandwidth <= wider
    ensures Times(SymbolTime(m), m.bandwidth) == Times(SymbolTime(m.(bandwidth := wider)), wider) > 0.0
    ensures LowDataRate(m.(bandwidth := wider)) ==> LowDataRate(m)
  {
    var fast := m.(bandwidth := wider);
    SymbolTimePositive(m);
    SymbolTimePositive(fast);
    NotFaster(SymbolTime(m), m.bandwidth, SymbolTime(fast), wider);
  }

  /** Switching on at spreading factor 1 leaves fewer than no bits to a symbol, which counts as no blocks. */
  predicate SwitchDropsBlocks(m: Modem, fast: Modem)
    requires m.bandwidth != 0.0 && fast.bandwidth != 0.0
  {
    m.spreading == 1 && LowDataRate(m) && !LowDataRate(fast)
  }

  lemma MoreBlocksWhenNarrower(payload: nat, m: Modem, wider: real)
    requires Sensible(m) && m.bandwidth <= wider
    requires Defined(payload, m) && Defined(payload, m.(bandwidth := wider))
    ensures BlocksOf(payload, m.(bandwidth := wider)) <= BlocksOf(payload, m)
       <==> !SwitchDropsBlocks(m, m.(bandwidth := wider))
  {
    var fast := m.(bandwidth := wider);
    var n := Numerator(payload, m);
    SameWork(m, wider);
    AirtimeRaisesIff(payload, m);
    AirtimeRaisesIff(payload, fast);
    if LowDataRate(m) && !LowDataRate(fast) {
      if m.spreading >= 3 {
        BlocksMonotone(n, Denominator(fast), n, Denominator(m));
      } else if m.spreading == 1 {
        NoBlocks(payload, m);
        BlocksIsCeiling(n, 4);
      } else {
        assert n <= 0;
      }
    }
  }

  lemma TotalStrict(b1: int, b2: int, codingRate: int, preamble: int)
    requires codingRate >= 1
    ensures Total(b1, codingRate, preamble) <= Total(b2, codingRate, preamble) <==> b1 <= b2
  {
    if b1 <= b2 {
      Scale(b1, b2, codingRate + 4);
    } else {
      Scale(b2 + 1, b1, codingRate + 4);
    }
  }

  lemma WorkBound(x: real, t: real, w: real, x': real, t': real, w': real)
    requires Times(t, w) == Times(t', w') > 0.0
    ensures Times(Times(x', t'), w') <= Times(Times(x, t), w) <==> x' <= x
  {
    var work := Times(t, w);
    assert x' * t' * w' == x' * work;
    assert x * t * w == x * work;
    MulOrder(x', x, work);
  }

  lemma MulOrder(a: real, b: real, k: real)
    requires k > 0.0
    ensures a * k <= b * k <==> a <= b
  {}

  /** Time on air times bandwidth never grows with bandwidth, exactly unless the switch drops all blocks. */
  lemma BandwidthScalingIff(payload: nat, m: Modem, wider: real)
    requires Sensible(m) && m.bandwidth <= wider
    requires Defined(payload, m) && Defined(payload, m.(bandwidth := wider))
    ensures var fast := m.(bandwidth := wider);
            Times(Airtime(payload, fast).value, wider) <= Times(Airtime(payload, m).value, m.bandwidth)
            <==> !SwitchDropsBlocks(m, fast)
  {
    var fast := m.(bandwidth := wider);
    AirtimeIs(payload, m);
    AirtimeIs(payload, fast);
    MoreBlocksWhenNarrower(payload, m, wider);
    TotalStrict(BlocksOf(payload, fast), BlocksOf(payload, m), m.codingRate, m.preamble);
    var (x, x') := (Total(BlocksOf(payload, m), m.codingRate, m.preamble),
                    Total(BlocksOf(payload, fast), m.codingRate, m.preamble));
    SameWork(m, wider);
    WorkBound(x, SymbolTime(m), m.bandwidth, x', SymbolTime(fast), wider);
  }

  /** Half the bandwidth takes at least twice the time, with the same exception. */
  lemma HalvingDoublesIff(payload: nat, m: Modem)
    requires Sensible(m)
    requires Defined(payload, m) && Defined(payload, m.(bandwidth := m.bandwidth / 2.0))
    ensures var half := m.(bandwidth := m.bandwidth / 2.0);
            Airtime(payload, half).value >= 2.0 * Airtime(payload, m).value <==> !SwitchDropsBlocks(half, m)
  {
    var half := m.(bandwidth := m.bandwidth / 2.0);
    assert half.(bandwidth := m.bandwidth) == m;
    BandwidthScalingIff(payload, half, m.bandwidth);
    CancelsIff(Airtime(payload, m).value, Airtime(payload, half).value, m.bandwidth);
  }

  lemma CancelsIff(a: real, b: real, w: real)
    requires w > 0.0
    ensures Times(a, w) <= Times(b, w / 2.0) <==> b >= 2.0 * a
  {
    assert a * w == 2.0 * a * (w / 2.0);
    MulOrder(2.0 * a, b, w / 2.0);
  }

  /** For the modems LoRa has nothing raises and there is no exception: half the bandwidth, at least twice the time. */
  lemma HalvingBandwidthDoubles(payload: nat, m: Modem)
    requires Usable(m)
    ensures var half := m.(bandwidth := m.bandwidth / 2.0);
            Airtime(payload, half).Some? && Airtime(payload, m).Some?
            && Airtime(payload, half).value >= 2.0 * Airtime(payload, m).value
  {
    AirtimeRaisesIff(payload, m);
    AirtimeRaisesIff(payload, m.(bandwidth := m.bandwidth / 2.0));
    HalvingDoublesIff(payload, m);
  }

  /** The exception occurs: at spreading factor 1, from 200 Hz down to 100 Hz. */
  lemma SpreadingOneException()
    ensures var (m, half) := (Modem(1, 200.0, 1, 8, true, true), Modem(1, 100.0, 1, 8, true, true));
            && SwitchDropsBlocks(half, m) && Airtime(0, m).Some? && Airtime(0, half).Some?
            && Airtime(0, half).value < 2.0 * Airtime(0, m).value
  {
    var (m, half) := (Modem(1, 200.0, 1, 8, true, true), Modem(1, 100.0, 1, 8, true, true));
    var one := 1;
    assert Pow2(one) == 2 * Pow2(one - 1) && SymbolTime(m) == 10.0 && SymbolTime(half) == 20.0;
    AirtimeRaisesIff(0, m);
    AirtimeRaisesIff(0, half);
    assert m.(bandwidth := m.bandwidth / 2.0) == half;
    HalvingDoublesIff(0, m);
  }

  // ---------------------------------------------------------------------------------------
  // What a transmission has to carry
  // ---------------------------------------------------------------------------------------

  /** Eight bits a byte, 20 for a header that is sent, 16 for a checksum, 8 more; the first symbols take 4 per SF. */
  function BitsToCarry(payload: nat, m: Modem): int {
    8 * payload + (if m.explicitHeader then 20 else 0) + (if m.crc then 16 else 0) + 8 - 4 * m.spreading
  }

  /** Four symbols' worth of bits, two fewer a symbol once a symbol lasts longer than 16 ms. */
  function BlockBits(m: Modem): int {
    if Pow2(m.spreading) as real * 1000.0 > 16.0 * m.bandwidth then 4 * m.spreading - 8 else 4 * m.spreading
  }

  predicate Carries(blocks: int, payload: nat, m: Modem) {
    BitsToCarry(payload, m) <= blocks * BlockBits(m)
  }

  /** Preamble, the sync word's 4.25 symbols, 8 symbols of header, and so many blocks of the coding rate's length. */
  function TimeOf(blocks: int, m: Modem): real
    requires m.bandwidth != 0.0
  {
    var symbol := Pow2(m.spreading) as real / m.bandwidth * 1000.0;
    Times(m.preamble as real + 12.25 + (blocks * (4 + m.codingRate)) as real, symbol)
  }

  lemma SwitchIff(m: Modem)
    requires m.bandwidth > 0.0
    ensures LowDataRate(m) <==> Pow2(m.spreading) as real * 1000.0 > 16.0 * m.bandwidth
  {
    SymbolTimePositive(m);
    Outlasts(SymbolTime(m), m.bandwidth, Pow2(m.spreading) as real * 1000.0);
  }

  lemma Outlasts(t: real, w: real, work: real)
    requires w > 0.0 && Times(t, w) == work
    ensures t > 16.0 <==> work > 16.0 * w
  {
    MulOrder(t, 16.0, w);
  }

  lemma TimeOfInjective(b: int, c: int, m: Modem)
    requires Usable(m)
    ensures TimeOf(b, m) == TimeOf(c, m) <==> b == c
  {
    SymbolTimePositive(m);
    SameBlocks(b, c, m.codingRate + 4);
    var (x, y) := (m.preamble as real + 12.25 + (b * (4 + m.codingRate)) as real,
                   m.preamble as real + 12.25 + (c * (4 + m.codingRate)) as real);
    MulOrder(x, y, SymbolTime(m));
    MulOrder(y, x, SymbolTime(m));
  }

  lemma SameBlocks(b: int, c: int, k: int)
    requires k > 0
    ensures b * k == c * k <==> b == c
  {
    if b < c { Scale(b + 1, c, k); } else if c < b { Scale(c + 1, b, k); }
  }

  /** The time on air is that of the fewest blocks that carry the bits, for every modem LoRa has. */
  lemma AirtimeIff(payload: nat, m: Modem, blocks: nat)
    requires Usable(m)
    ensures Airtime(payload, m) == Some(TimeOf(blocks, m))
       <==> Carries(blocks, payload, m) && forall fewer: nat | fewer < blocks :: !Carries(fewer, payload, m)
  {
    var b := BlocksOf(payload, m);
    AirtimeRaisesIff(payload, m);
    AirtimeIs(payload, m);
    SwitchIff(m);
    BlocksIsCeiling(Numerator(payload, m), Denominator(m));
    TimeOfInjective(b, blocks, m);
    if b < blocks { assert Carries(b, payload, m); }
  }

  /** A checksum costs what two more bytes cost. */
  lemma ChecksumIsTwoBytes(payload: nat, m: Modem)
    ensures Airtime(payload, m.(crc := true)) == Airtime(payload + 2, m.(crc := false))
  {
    if m.bandwidth != 0.0 {
      var (a, b) := (m.(crc := true), m.(crc := false));
      assert Numerator(payload, a) == Numerator(payload + 2, b) && Denominator(a) == Denominator(b);
    }
  }

  /** One more symbol of preamble costs one symbol's time. */
  lemma PreambleIsSymbols(payload: nat, m: Modem)
    requires Airtime(payload, m).Some?
    ensures Airtime(payload, m.(preamble := m.preamble + 1))
         == Some(Airtime(payload, m).value + Pow2(m.spreading) as real / m.bandwidth * 1000.0)
  {
    var longer := m.(preamble := m.preamble + 1);
    var x := PayloadSymbols(payload, m).value as real + m.preamble as real + 4.25;
    assert PayloadSymbols(payload, longer) == PayloadSymbols(payload, m);
    OneMore(x, SymbolTime(m));
  }

  lemma OneMore(x: real, t: real)
    ensures Times(x + 1.0, t) == Times(x, t) + t
  {}

  const LONG_FAST := Modem(11, 250000.0, 1, 8, true, true)
  const LONG_MODERATE := Modem(11, 125000.0, 1, 8, true, true)

  lemma PresetsUsable()
    ensures Pow2(11) == 2048 && Usable(LONG_FAST) && Usable(LONG_MODERATE)
    ensures BlockBits(LONG_FAST) == 44 && BlockBits(LONG_MODERATE) == 36
  {
    var eleven := 11;
    assert Pow2(eleven) == 2048;
  }

  /** Blocks that are just enough. */
  lemma AirtimeAt(payload: nat, m: Modem, blocks: nat)
    requires Usable(m) && blocks > 0 && Carries(blocks, payload, m) && !Carries(blocks - 1, payload, m)
    requires BlockBits(m) >= 0
    ensures Airtime(payload, m) == Some(TimeOf(blocks, m))
  {
    forall fewer: nat | fewer < blocks ensures !Carries(fewer, payload, m) {
      Scale(fewer, blocks - 1, BlockBits(m));
    }
    AirtimeIff(payload, m, blocks);
  }

  /** LONG_FAST with any options: 8.192 ms a symbol, 44 bits a block. */
  lemma LongFastAt(payload: nat, m: Modem, blocks: nat)
    requires m.spreading == 11 && m.bandwidth == 250000.0 && m.preamble == 8 && 1 <= m.codingRate <= 4 && blocks > 0
    requires 44 * (blocks - 1) < BitsToCarry(payload, m) <= 44 * blocks
    ensures Airtime(payload, m) == Some((20.25 + (blocks * (4 + m.codingRate)) as real) * 8.192)
  {
    PresetsUsable();
    AirtimeAt(payload, m, blocks);
  }

  /** Sixteen bytes on LONG_FAST: about 289 ms, ten times what the module's introduction says. */
  lemma LongFastSixteenBytes()
    ensures Airtime(16, LONG_FAST) == Some(288.768)
  {
    LongFastAt(16, LONG_FAST, 3);
  }

  /** One byte more needs another block; a checksum less gives two bytes back; coding rate 4/8 takes longer blocks. */
  lemma LongFastValues()
    ensures Airtime(17, LONG_FAST) == Some(329.728)
    ensures Airtime(18, LONG_FAST.(crc := false)) == Some(288.768)
    ensures Airtime(19, LONG_FAST.(crc := false)) == Some(329.728)
    ensures Airtime(16, LONG_FAST.(codingRate := 4)) == Some(362.496)
    ensures Airtime(19, LONG_FAST.(explicitHeader := false)) == Some(288.768)
    ensures Airtime(20, LONG_FAST.(explicitHeader := false)) == Some(329.728)
  {
    LongFastAt(17, LONG_FAST, 4);
    LongFastAt(18, LONG_FAST.(crc := false), 3);
    LongFastAt(19, LONG_FAST.(crc := false), 4);
    LongFastAt(16, LONG_FAST.(codingRate := 4), 3);
    LongFastAt(19, LONG_FAST.(explicitHeader := false), 3);
    LongFastAt(20, LONG_FAST.(explicitHeader := false), 4);
  }

  /** On the other side of the switch, at 16.384 ms a symbol, each holds two bits fewer; 16 ms itself is this side. */
  lemma SwitchValues()
    ensures Airtime(16, LONG_MODERATE) == Some(659.456)
    ensures !LowDataRate(Modem(4, 1000.0, 1, 8, true, true)) && SymbolTime(Modem(4, 1000.0, 1, 8, true, true)) == 16.0
  {
    PresetsUsable();
    AirtimeAt(16, LONG_MODERATE, 4);
    var four := 4;
    assert Pow2(four) == 16;
  }
}
