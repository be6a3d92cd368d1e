/**
 * The purchase-suggestion estimator (a base-stock model): the weekly demand
 * of every product over a window of recent weeks, its mean and sample
 * standard deviation, a safety stock for the product's service level, and
 * the resulting target stock, sorted by the quantity to buy.
 */
module Replenishment {
  import opened Wrappers
  import opened Numeric

  /**
   * What the estimator reads of a sale line. Days are plain day numbers; the
   * week a day falls in is given by a bucket function `week` that every
   * operation below takes as a parameter, so no particular week formula is
   * assumed.
   */
  datatype SaleLine = SaleLine(productId: int, warehouseId: int, day: int, quantity: real)

  datatype Product = Product(id: int, code: string, name: string)

  /** One row of the replenishment-parameters table. */
  datatype PolicyRow = PolicyRow(productId: int, leadTime: int, coverage: int, serviceLevel: real)

  /** Lead time and coverage in weeks, service level as a fraction. */
  datatype Policy = Policy(leadTime: int, coverage: int, serviceLevel: real)

  /** The total quantity of one product sold in one week. */
  datatype WeekSum = WeekSum(productId: int, week: int, quantity: real)

  datatype Stats = Stats(mean: real, sd: real)

  datatype Suggestion = Suggestion(
    productId: int,
    caption: string,
    weeklyMean: real,
    weeklySd: real,
    weeks: nat,
    leadTime: int,
    coverage: int,
    serviceLevel: real,
    z: real,
    protectionPeriod: int,
    protectionDemand: real,
    safetyStock: real,
    targetStock: int,
    recommended: int)

  datatype Error =
    /** Two parameter rows for one product: building the dictionary throws. */
    | DuplicatePolicy(productId: int)
    /** A negative protection period: the square root is NaN and converting it to decimal throws. */
    | NegativeProtectionPeriod(productId: int)
    /** The start of the window is not a date: AddDays throws ArgumentOutOfRangeException. */
    | DateOutOfRange

  /** The policy of a product without a parameter row. */
  const DefaultPolicy: Policy := Policy(1, 2, 0.95)

  // ---------------------------------------------------------------------
  // Selecting the lines

  /**
   * Day numbers count the days since 1 January of year 1, as DateTime's
   * ticks do; this is 31 December 9999, the last day a DateTime can hold.
   */
  const LastDay: int := 3652058

  /**
   * The first day of the window: today plus the unchecked int32 product
   * -7·window, or AddDays's exception when that day is outside years 1 to
   * 9999.
   */
  function Cutoff(today: int, window: int): (r: Result<int, Error>)
    ensures r.Success? <==> 0 <= today + Wrap32(-7 * window) <= LastDay
    ensures r.Success? ==> 0 <= r.value <= LastDay && r.value - today == Wrap32(-7 * window)
    ensures r.Failure? ==> r.error == DateOutOfRange
    ensures IsInt32(-7 * window) && 0 <= today - 7 * window <= LastDay ==> r == Success(today - 7 * window)
  {
    var d := today + Wrap32(-7 * window);
    if 0 <= d <= LastDay then Success(d) else Failure(DateOutOfRange)
  }

  /**
   * A window of more than 306783378 weeks makes the product wrap to a
   * positive number of days, past the last date: the estimate cannot start.
   */
  lemma CutoffWraps(today: int)
    requires 0 <= today <= LastDay
    ensures Wrap32(-7 * 306783379) == 2147483643
    ensures Cutoff(today, 306783379) == Failure(DateOutOfRange)
  {
  }

  /** A window reaching back before year 1 makes AddDays throw. */
  lemma CutoffBeforeYearOne(today: int, window: int)
    requires 0 <= today <= LastDay && IsInt32(-7 * window)
    requires 7 * window > today
    ensures Cutoff(today, window) == Failure(DateOutOfRange)
  {
  }

  predicate Selected(l: SaleLine, cutoff: int, warehouse: Option<int>) {
    l.day >= cutoff && (warehouse.Some? ==> l.warehouseId == warehouse.value)
  }

  /** The lines dated on or after the cutoff, of one warehouse when one is given. */
  function Window(lines: seq<SaleLine>, cutoff: int, warehouse: Option<int>): (r: seq<SaleLine>)
    ensures forall l :: l in r <==> l in lines && Selected(l, cutoff, warehouse)
    ensures |r| <= |lines|
  {
    if lines == [] then []
    else
      var init := Window(lines[..|lines| - 1], cutoff, warehouse);
      var l := lines[|lines| - 1];
      assert lines == lines[..|lines| - 1] + [l];
      if Selected(l, cutoff, warehouse) then init + [l] else init
  }

  // ---------------------------------------------------------------------
  // Weekly totals

  function KeyOfLine(l: SaleLine, week: int -> int): (int, int) {
    (l.productId, week(l.day))
  }

  function KeyOf(r: WeekSum): (int, int) {
    (r.productId, r.week)
  }

  function Keys(rows: seq<WeekSum>): set<(int, int)> {
    set r | r in rows :: KeyOf(r)
  }

  function LineKeys(lines: seq<SaleLine>, week: int -> int): set<(int, int)> {
    set l | l in lines :: KeyOfLine(l, week)
  }

  predicate DistinctKeys(rows: seq<WeekSum>) {
    rows == [] || (KeyOf(rows[0]) !in Keys(rows[1..]) && DistinctKeys(rows[1..]))
  }

  /** The quantity the lines sold of product p in week w. */
  function LineTotal(lines: seq<SaleLine>, p: int, w: int, week: int -> int): real {
    if lines == [] then 0.0
    else
      var l := lines[|lines| - 1];
      LineTotal(lines[..|lines| - 1], p, w, week) + (if KeyOfLine(l, week) == (p, w) then l.quantity else 0.0)
  }

  /** The quantity the rows hold for product p in week w. */
  function RowTotal(rows: seq<WeekSum>, p: int, w: int): real {
    if rows == [] then 0.0
    else (if KeyOf(rows[0]) == (p, w) then rows[0].quantity else 0.0) + RowTotal(rows[1..], p, w)
  }

  /** The total quantity the lines sold of product p. */
  function ProductTotal(lines: seq<SaleLine>, p: int): real {
    if lines == [] then 0.0
    else
      var l := lines[|lines| - 1];
      ProductTotal(lines[..|lines| - 1], p) + (if l.productId == p then l.quantity else 0.0)
  }

  /** Adds q to the row of (p, w), appending a row when there is none. */
  function AddTo(rows: seq<WeekSum>, p: int, w: int, q: real): seq<WeekSum> {
    if rows == [] then [WeekSum(p, w, q)]
    else if KeyOf(rows[0]) == (p, w) then [rows[0].(quantity := rows[0].quantity + q)] + rows[1..]
    else [rows[0]] + AddTo(rows[1..], p, w, q)
  }

  lemma KeysCons(r: WeekSum, rows: seq<WeekSum>)
    ensures Keys([r] + rows) == {KeyOf(r)} + Keys(rows)
  {
    assert forall x :: x in [r] + rows <==> x == r || x in rows;
  }

  lemma {:induction false} AddToKeys(rows: seq<WeekSum>, p: int, w: int, q: real)
    ensures Keys(AddTo(rows, p, w, q)) == Keys(rows) + {(p, w)}
    ensures DistinctKeys(rows) ==> DistinctKeys(AddTo(rows, p, w, q))
  {
    if rows == [] {
      var n := WeekSum(p, w, q);
      assert [n][1..] == [];
      KeysCons(n, []);
    } else {
      assert rows == [rows[0]] + rows[1..];
      KeysCons(rows[0], rows[1..]);
      if KeyOf(rows[0]) == (p, w) {
        KeysCons(rows[0].(quantity := rows[0].quantity + q), rows[1..]);
      } else {
        AddToKeys(rows[1..], p, w, q);
        KeysCons(rows[0], AddTo(rows[1..], p, w, q));
      }
    }
  }

  lemma {:induction false} AddToTotal(rows: seq<WeekSum>, p: int, w: int, q: real, p': int, w': int)
    ensures RowTotal(AddTo(rows, p, w, q), p', w') ==
            RowTotal(rows, p', w') + (if (p, w) == (p', w') then q else 0.0)
  {
    if rows != [] && KeyOf(rows[0]) != (p, w) {
      AddToTotal(rows[1..], p, w, q, p', w');
      assert ([rows[0]] + AddTo(rows[1..], p, w, q))[1..] == AddTo(rows[1..], p, w, q);
    } else if rows != [] {
      var r' := [rows[0].(quantity := rows[0].quantity + q)] + rows[1..];
      assert r'[1..] == rows[1..];
    }
  }

  /** The weekly rows of the lines: one row per product and week sold, in first-seen order. */
  function Aggregate(lines: seq<SaleLine>, week: int -> int): (rows: seq<WeekSum>)
    ensures DistinctKeys(rows)
    ensures Keys(rows) == LineKeys(lines, week)
  {
    if lines == [] then []
    else
      var init := lines[..|lines| - 1];
      var l := lines[|lines| - 1];
      var rows := Aggregate(init, week);
      AddToKeys(rows, l.productId, week(l.day), l.quantity);
      assert lines == init + [l];
      assert LineKeys(lines, week) == LineKeys(init, week) + {KeyOfLine(l, week)};
      AddTo(rows, l.productId, week(l.day), l.quantity)
  }

  /** Each weekly row holds exactly what the lines sold of its product in its week. */
  lemma {:induction false} AggregateTotals(lines: seq<SaleLine>, p: int, w: int, week: int -> int)
    ensures RowTotal(Aggregate(lines, week), p, w) == LineTotal(lines, p, w, week)
  {
    if lines != [] {
      var l := lines[|lines| - 1];
      AggregateTotals(lines[..|lines| - 1], p, w, week);
      AddToTotal(Aggregate(lines[..|lines| - 1], week), l.productId, week(l.day), l.quantity, p, w);
    }
  }

  /** The weekly quantities of product p, one per week in which it sold. */
  function WeeksOf(rows: seq<WeekSum>, p: int): (xs: seq<real>)
    ensures |xs| <= |rows|
  {
    if rows == [] then []
    else if rows[0].productId == p then [rows[0].quantity] + WeeksOf(rows[1..], p)
    else WeeksOf(rows[1..], p)
  }

  lemma SumCons(x: real, xs: seq<real>)
    ensures Sum([x] + xs) == x + Sum(xs)
  {
    SumAppend([x], xs);
    assert [x][..0] == [];
  }

  lemma {:induction false} AddToWeeksSum(rows: seq<WeekSum>, p: int, w: int, q: real, p': int)
    ensures Sum(WeeksOf(AddTo(rows, p, w, q), p')) == Sum(WeeksOf(rows, p')) + (if p == p' then q else 0.0)
  {
    if rows == [] {
      SumCons(q, []);
    } else {
      var r0 := rows[0];
      if KeyOf(r0) == (p, w) {
        var r' := [r0.(quantity := r0.quantity + q)] + rows[1..];
        assert r'[1..] == rows[1..];
        if r0.productId == p' {
          SumCons(r0.quantity + q, WeeksOf(rows[1..], p'));
          SumCons(r0.quantity, WeeksOf(rows[1..], p'));
        }
      } else {
        var r' := [r0] + AddTo(rows[1..], p, w, q);
        assert r'[1..] == AddTo(rows[1..], p, w, q);
        AddToWeeksSum(rows[1..], p, w, q, p');
        if r0.productId == p' {
          SumCons(r0.quantity, WeeksOf(AddTo(rows[1..], p, w, q), p'));
          SumCons(r0.quantity, WeeksOf(rows[1..], p'));
        }
      }
    }
  }

  /** The weekly quantities of a product add up to what its lines sold in total. */
  lemma {:induction false} WeeksSumToTotal(lines: seq<SaleLine>, p: int, week: int -> int)
    ensures Sum(WeeksOf(Aggregate(lines, week), p)) == ProductTotal(lines, p)
  {
    if lines != [] {
      var l := lines[|lines| - 1];
      WeeksSumToTotal(lines[..|lines| - 1], p, week);
      AddToWeeksSum(Aggregate(lines[..|lines| - 1], week), l.productId, week(l.day), l.quantity, p);
    }
  }

  /** The weeks in which the lines sold product p. */
  function WeeksSold(lines: seq<SaleLine>, p: int, week: int -> int): set<int> {
    set k | k in LineKeys(lines, week) && k.0 == p :: k.1
  }

  function RowWeeks(rows: seq<WeekSum>, p: int): set<int> {
    set k | k in Keys(rows) && k.0 == p :: k.1
  }

  lemma {:induction false} WeeksOfCount(rows: seq<WeekSum>, p: int)
    requires DistinctKeys(rows)
    ensures |WeeksOf(rows, p)| == |RowWeeks(rows, p)|
  {
    if rows != [] {
      var r0 := rows[0];
      WeeksOfCount(rows[1..], p);
      assert rows == [r0] + rows[1..];
      KeysCons(r0, rows[1..]);
      if r0.productId == p {
        assert RowWeeks(rows, p) == {r0.week} + RowWeeks(rows[1..], p);
        assert r0.week !in RowWeeks(rows[1..], p);
      } else {
        assert RowWeeks(rows, p) == RowWeeks(rows[1..], p);
      }
    }
  }

  /** A product has one weekly quantity per distinct week in which it sold. */
  lemma WeeksCount(lines: seq<SaleLine>, p: int, week: int -> int)
    ensures |WeeksOf(Aggregate(lines, week), p)| == |WeeksSold(lines, p, week)|
  {
    WeeksOfCount(Aggregate(lines, week), p);
  }

  lemma {:induction false} WeeksOfEmpty(rows: seq<WeekSum>, p: int)
    requires WeeksOf(rows, p) == []
    ensures forall k :: k in Keys(rows) ==> k.0 != p
  {
    if rows != [] {
      WeeksOfEmpty(rows[1..], p);
      assert rows == [rows[0]] + rows[1..];
      KeysCons(rows[0], rows[1..]);
    }
  }

  // ---------------------------------------------------------------------
  // Statistics

  /** The sum of squared deviations from m. */
  function SquaredDeviations(xs: seq<real>, m: real): (r: real)
    ensures r >= 0.0
  {
    if xs == [] then 0.0
    else
      var d := xs[|xs| - 1] - m;
      SquareNonNegative(d);
      SquaredDeviations(xs[..|xs| - 1], m) + d * d
  }

  lemma SquareNonNegative(d: real)
    ensures d * d >= 0.0
  {
    if d < 0.0 {
      MultiplyMonotone(0.0, -d, -d);
      assert d * d == (-d) * (-d);
    } else if d > 0.0 {
      MultiplyMonotone(0.0, d, d);
    }
  }

  /** What Math.Sqrt promises on non-negative arguments. */
  ghost predicate SqrtSpec(sqrt: real -> real) {
    forall x :: 0.0 <= x ==> 0.0 <= sqrt(x) && sqrt(x) * sqrt(x) == x
  }

  /**
   * The mean of the weekly quantities (0 for none) and their sample standard
   * deviation (0 for fewer than two weeks).
   */
  function Statistics(xs: seq<real>, sqrt: real -> real): (st: Stats)
    requires SqrtSpec(sqrt)
    ensures |xs| > 0 ==> st.mean * |xs| as real == Sum(xs)
    ensures |xs| == 0 ==> st.mean == 0.0
    ensures st.sd >= 0.0
    ensures |xs| <= 1 ==> st.sd == 0.0
    ensures |xs| > 1 ==> st.sd * st.sd * (|xs| - 1) as real == SquaredDeviations(xs, st.mean)
  {
    var n := |xs|;
    var mean := if n > 0 then Sum(xs) / n as real else 0.0;
    var variance := if n > 1 then SquaredDeviations(xs, mean) / (n - 1) as real else 0.0;
    Stats(mean, if n > 1 then sqrt(variance) else 0.0)
  }

  lemma SqrtUnique(sqrt: real -> real, x: real, y: real)
    requires SqrtSpec(sqrt)
    requires y >= 0.0 && y * y == x
    ensures sqrt(x) == y
  {
    var s := sqrt(x);
    if s < y {
      SquareLess(s, y);
    } else if y < s {
      SquareLess(y, s);
    }
  }

  lemma SquareLess(a: real, b: real)
    requires 0.0 <= a < b
    ensures a * a < b * b
  {
    MultiplyStrict(b - a, b + a);
    assert (b - a) * (b + a) == b * b - a * a;
  }

  lemma SquareEqual(a: real, b: real)
    requires a == b
    ensures a * a == b * b
  {
  }

  lemma MultiplyStrict(a: real, b: real)
    requires a > 0.0 && b > 0.0
    ensures a * b > 0.0
  {
  }

  lemma SqrtBounds(sqrt: real -> real, x: real, lo: real, hi: real)
    requires SqrtSpec(sqrt)
    requires 0.0 <= lo < hi && lo * lo < x < hi * hi
    ensures lo < sqrt(x) < hi
  {
    var s := sqrt(x);
    if s < lo {
      SquareLess(s, lo);
    } else if s == lo {
      SquareEqual(s, lo);
    }
    if s > hi {
      SquareLess(hi, s);
    } else if s == hi {
      SquareEqual(s, hi);
    }
  }

  lemma {:induction false} SquaredDeviationsConstant(xs: seq<real>, c: real)
    requires forall i :: 0 <= i < |xs| ==> xs[i] == c
    ensures SquaredDeviations(xs, c) == 0.0
  {
    if xs != [] {
      SquaredDeviationsConstant(xs[..|xs| - 1], c);
    }
  }

  /** A product that sold the same quantity every week has that mean and no deviation. */
  lemma SteadyDemand(xs: seq<real>, c: real, sqrt: real -> real)
    requires SqrtSpec(sqrt)
    requires |xs| > 0 && forall i :: 0 <= i < |xs| ==> xs[i] == c
    ensures Statistics(xs, sqrt) == Stats(c, 0.0)
  {
    SumConstant(xs, c);
    var st := Statistics(xs, sqrt);
    assert st.mean == c;
    SquaredDeviationsConstant(xs, c);
    if |xs| > 1 {
      SqrtUnique(sqrt, 0.0, 0.0);
    }
  }

  /** Non-negative weekly quantities have a non-negative mean. */
  lemma MeanNonNegative(xs: seq<real>, sqrt: real -> real)
    requires SqrtSpec(sqrt)
    requires forall i :: 0 <= i < |xs| ==> xs[i] >= 0.0
    ensures Statistics(xs, sqrt).mean >= 0.0
  {
    SumNonNegative(xs);
  }

  /** Weekly sales of 10, 12 and 14 give a mean of 12 and a deviation of 2. */
  lemma StatisticsExample(sqrt: real -> real)
    requires SqrtSpec(sqrt)
    ensures Statistics([10.0, 12.0, 14.0], sqrt) == Stats(12.0, 2.0)
  {
    var xs := [10.0, 12.0, 14.0];
    assert xs[..2] == [10.0, 12.0] && [10.0, 12.0][..1] == [10.0] && [10.0][..0] == [];
    assert Sum([10.0]) == 10.0;
    assert Sum([10.0, 12.0]) == 22.0;
    assert Sum(xs) == 36.0;
    assert SquaredDeviations([10.0], 12.0) == 4.0;
    assert SquaredDeviations([10.0, 12.0], 12.0) == 4.0;
    assert SquaredDeviations(xs, 12.0) == 8.0;
    SqrtUnique(sqrt, 4.0, 2.0);
  }

  // ---------------------------------------------------------------------
  // Service level and policies

  /** The normal-distribution factor for a service level, from a step table. */
  function ZFromService(ns: real): (z: real)
    ensures 1.282 <= z <= 2.576
  {
    if ns <= 0.90 then 1.282
    else if ns <= 0.95 then 1.645
    else if ns <= 0.97 then 1.880
    else if ns <= 0.98 then 2.054
    else if ns <= 0.99 then 2.326
    else 2.576
  }

  /** A higher service level never asks for a smaller factor. */
  lemma ZMonotone(ns1: real, ns2: real)
    requires ns1 <= ns2
    ensures ZFromService(ns1) <= ZFromService(ns2)
  {
  }

  /** The table's steps: each threshold is the last level of its factor. */
  lemma ZSteps()
    ensures ZFromService(0.90) == 1.282 && ZFromService(0.9001) == 1.645
    ensures ZFromService(0.95) == 1.645 && ZFromService(0.9501) == 1.880
    ensures ZFromService(0.97) == 1.880 && ZFromService(0.98) == 2.054
    ensures ZFromService(0.99) == 2.326 && ZFromService(0.9901) == 2.576
  {
  }

  function PolicyOf(r: PolicyRow): Policy {
    Policy(r.leadTime, r.coverage, r.serviceLevel)
  }

  function PolicyIds(rows: seq<PolicyRow>): set<int> {
    set r | r in rows :: r.productId
  }

  predicate DistinctProducts(rows: seq<PolicyRow>) {
    forall i, j :: 0 <= i < j < |rows| ==> rows[i].productId != rows[j].productId
  }

  /**
   * The parameters table as a dictionary keyed by product; like
   * ToDictionary it fails at the first row whose product was already seen.
   */
  function ToPolicyMap(rows: seq<PolicyRow>): (r: Result<map<int, Policy>, Error>)
    ensures r.Success? ==> r.value.Keys == PolicyIds(rows)
  {
    if rows == [] then Success(map[])
    else
      var init := rows[..|rows| - 1];
      var last := rows[|rows| - 1];
      PolicyRowsSnoc(rows);
      match ToPolicyMap(init)
      case Failure(e) => Failure(e)
      case Success(m) =>
        if last.productId in m then Failure(DuplicatePolicy(last.productId))
        else Success(m[last.productId := PolicyOf(last)])
  }

  /** How the last row of the table relates to the rows before it. */
  lemma PolicyRowsSnoc(rows: seq<PolicyRow>)
    requires rows != []
    ensures var init := rows[..|rows| - 1];
            var last := rows[|rows| - 1];
            && rows == init + [last]
            && PolicyIds(rows) == PolicyIds(init) + {last.productId}
            && (DistinctProducts(rows) <==> DistinctProducts(init) && last.productId !in PolicyIds(init))
            && forall i :: 0 <= i < |init| ==> rows[i] == init[i]
  {
    var init := rows[..|rows| - 1];
    var last := rows[|rows| - 1];
    assert rows == init + [last];
    if DistinctProducts(init) && last.productId !in PolicyIds(init) {
      forall i, j | 0 <= i < j < |rows|
        ensures rows[i].productId != rows[j].productId
      {
        if j == |rows| - 1 {
          assert init[i] in init;
        }
      }
    }
  }

  /** Each row's product maps to that row's policy. */
  lemma {:induction false} ToPolicyMapValues(rows: seq<PolicyRow>, i: nat)
    requires ToPolicyMap(rows).Success? && i < |rows|
    ensures ToPolicyMap(rows).value[rows[i].productId] == PolicyOf(rows[i])
  {
    var init := rows[..|rows| - 1];
    PolicyRowsSnoc(rows);
    if i < |init| {
      ToPolicyMapValues(init, i);
      assert init[i].productId in ToPolicyMap(init).value;
    }
  }

  /** The dictionary is built exactly when no product has two rows. */
  lemma {:induction false} ToPolicyMapSucceeds(rows: seq<PolicyRow>)
    ensures ToPolicyMap(rows).Success? <==> DistinctProducts(rows)
  {
    if rows != [] {
      PolicyRowsSnoc(rows);
      ToPolicyMapSucceeds(rows[..|rows| - 1]);
    }
  }

  /** A failure names the first row whose product an earlier row already had. */
  lemma {:induction false} ToPolicyMapFirstDuplicate(rows: seq<PolicyRow>)
    requires ToPolicyMap(rows).Failure?
    ensures exists j :: 0 <= j < |rows| && DistinctProducts(rows[..j])
                        && rows[j].productId in PolicyIds(rows[..j])
                        && ToPolicyMap(rows).error == DuplicatePolicy(rows[j].productId)
  {
    var init := rows[..|rows| - 1];
    PolicyRowsSnoc(rows);
    if ToPolicyMap(init).Failure? {
      ToPolicyMapFirstDuplicate(init);
      var j :| 0 <= j < |init| && DistinctProducts(init[..j])
               && init[j].productId in PolicyIds(init[..j])
               && ToPolicyMap(init).error == DuplicatePolicy(init[j].productId);
      assert init[..j] == rows[..j];
    } else {
      ToPolicyMapSucceeds(init);
      assert rows[..|rows| - 1] == init;
    }
  }

  function PolicyFor(policies: map<int, Policy>, id: int): Policy {
    if id in policies then policies[id] else DefaultPolicy
  }

  // ---------------------------------------------------------------------
  // One product

  /** The expected demand over the protection period. */
  function ProtectionDemand(mean: real, period: int): real {
    mean * period as real
  }

  /** The safety stock: z deviations of the demand over the protection period. */
  function SafetyStock(z: real, sd: real, period: int, sqrt: real -> real): real {
    z * sd * sqrt(period as real)
  }

  lemma MultiplyNonNegative(a: real, b: real)
    requires a >= 0.0 && b >= 0.0
    ensures a * b >= 0.0
  {
    if a > 0.0 {
      MultiplyMonotone(0.0, b, a);
    }
  }

  lemma SafetyStockNonNegative(z: real, sd: real, period: int, sqrt: real -> real)
    requires SqrtSpec(sqrt)
    requires z >= 0.0 && sd >= 0.0 && period >= 0
    ensures SafetyStock(z, sd, period, sqrt) >= 0.0
  {
    MultiplyNonNegative(z, sd);
    MultiplyNonNegative(z * sd, sqrt(period as real));
  }

  /** P = lead time + coverage: an unchecked int32 sum, which wraps when it overflows. */
  function ProtectionPeriod(pol: Policy): (period: int)
    ensures IsInt32(period)
    ensures IsInt32(pol.leadTime + pol.coverage) ==> period == pol.leadTime + pol.coverage
  {
    Wrap32(pol.leadTime + pol.coverage)
  }

  /** Two int32 periods of 2^30 weeks add up to -2^31: the square root then fails. */
  lemma ProtectionPeriodWraps(p: Product, st: Option<Stats>, weeks: nat, level: real, sqrt: real -> real)
    requires SqrtSpec(sqrt)
    ensures ProtectionPeriod(Policy(0x4000_0000, 0x4000_0000, level)) == -0x8000_0000
    ensures Suggest(p, st, weeks, Policy(0x4000_0000, 0x4000_0000, level), sqrt) == Failure(NegativeProtectionPeriod(p.id))
  {
  }

  /**
   * The suggestion for one product from its statistics (none when it did not
   * sell in the window), its number of weeks sold and its policy.
   */
  function Suggest(p: Product, st: Option<Stats>, weeks: nat, pol: Policy, sqrt: real -> real)
    : (r: Result<Suggestion, Error>)
    requires SqrtSpec(sqrt)
    ensures r.Success? <==> ProtectionPeriod(pol) >= 0
    ensures r.Failure? ==> r.error == NegativeProtectionPeriod(p.id)
    ensures r.Success? ==>
      var s := r.value;
      var m := if st.Some? then st.value.mean else 0.0;
      var sd := if st.Some? then st.value.sd else 0.0;
      var period := ProtectionPeriod(pol);
      var need := ProtectionDemand(m, period) + SafetyStock(s.z, sd, period, sqrt);
      && s.productId == p.id && s.caption == p.code + " - " + p.name
      && s.weeks == weeks && s.leadTime == pol.leadTime && s.coverage == pol.coverage
      && s.serviceLevel == pol.serviceLevel && s.z == ZFromService(pol.serviceLevel)
      && s.protectionPeriod == period
      && s.weeklyMean == Round3(m) && s.weeklySd == Round3(sd)
      && s.protectionDemand == Round3(ProtectionDemand(m, period))
      && s.safetyStock == Round3(SafetyStock(s.z, sd, period, sqrt))
      // the target is the least whole quantity covering demand and safety stock
      && need <= s.targetStock as real && (s.targetStock - 1) as real < need
      && s.recommended == s.targetStock
  {
    var period := ProtectionPeriod(pol);
    if period < 0 then Failure(NegativeProtectionPeriod(p.id))
    else
      var mean := if st.Some? then st.value.mean else 0.0;
      var sd := if st.Some? then st.value.sd else 0.0;
      var z := ZFromService(pol.serviceLevel);
      var demand := ProtectionDemand(mean, period);
      var safety := SafetyStock(z, sd, period, sqrt);
      var target := Ceiling(demand + safety);
      Success(Suggestion(
        p.id, p.code + " - " + p.name, Round3(mean), Round3(sd), weeks,
        pol.leadTime, pol.coverage, pol.serviceLevel, z,
        period, Round3(demand), Round3(safety), target, target))
  }

  /** With non-negative statistics the target stock is never negative. */
  lemma TargetNonNegative(p: Product, st: Stats, weeks: nat, pol: Policy, sqrt: real -> real)
    requires SqrtSpec(sqrt)
    requires st.mean >= 0.0 && st.sd >= 0.0 && ProtectionPeriod(pol) >= 0
    ensures Suggest(p, Some(st), weeks, pol, sqrt).value.targetStock >= 0
  {
    var period := ProtectionPeriod(pol);
    var z := ZFromService(pol.serviceLevel);
    MultiplyNonNegative(st.mean, period as real);
    SafetyStockNonNegative(z, st.sd, period, sqrt);
    var total := ProtectionDemand(st.mean, period) + SafetyStock(z, st.sd, period, sqrt);
    assert total >= 0.0;
    assert Suggest(p, Some(st), weeks, pol, sqrt).value.targetStock == Ceiling(total);
  }

  /** Raising the service level never lowers the target stock. */
  lemma TargetMonotoneInService(p: Product, st: Stats, weeks: nat, pol: Policy, ns: real, sqrt: real -> real)
    requires SqrtSpec(sqrt)
    requires st.sd >= 0.0 && ProtectionPeriod(pol) >= 0 && pol.serviceLevel <= ns
    ensures Suggest(p, Some(st), weeks, pol, sqrt).value.targetStock
            <= Suggest(p, Some(st), weeks, pol.(serviceLevel := ns), sqrt).value.targetStock
  {
    var period := ProtectionPeriod(pol);
    var z1, z2 := ZFromService(pol.serviceLevel), ZFromService(ns);
    ZMonotone(pol.serviceLevel, ns);
    SafetyStockMonotone(z1, z2, st.sd, period, sqrt);
    var d := ProtectionDemand(st.mean, period);
    CeilingMonotone(d + SafetyStock(z1, st.sd, period, sqrt), d + SafetyStock(z2, st.sd, period, sqrt));
  }

  lemma SafetyStockMonotone(z1: real, z2: real, sd: real, period: int, sqrt: real -> real)
    requires SqrtSpec(sqrt)
    requires z1 <= z2 && sd >= 0.0 && period >= 0
    ensures SafetyStock(z1, sd, period, sqrt) <= SafetyStock(z2, sd, period, sqrt)
  {
    var k := sd * sqrt(period as real);
    MultiplyNonNegative(sd, sqrt(period as real));
    assert SafetyStock(z1, sd, period, sqrt) == z1 * k;
    assert SafetyStock(z2, sd, period, sqrt) == z2 * k;
    if k > 0.0 {
      MultiplyMonotone(z1, z2, k);
    }
  }

  /**
   * Mean 10 and deviation 2 under the default policy: a protection period of
   * three weeks, a factor of 1.645 and a target of 36.
   */
  lemma DefaultPolicyExample(p: Product, sqrt: real -> real)
    requires SqrtSpec(sqrt)
    ensures Suggest(p, Some(Stats(10.0, 2.0)), 3, DefaultPolicy, sqrt).Success?
    ensures Suggest(p, Some(Stats(10.0, 2.0)), 3, DefaultPolicy, sqrt).value.protectionPeriod == 3
    ensures Suggest(p, Some(Stats(10.0, 2.0)), 3, DefaultPolicy, sqrt).value.z == 1.645
    ensures Suggest(p, Some(Stats(10.0, 2.0)), 3, DefaultPolicy, sqrt).value.targetStock == 36
  {
    SqrtBounds(sqrt, 3.0, 1.732, 1.7321);
  }

  // ---------------------------------------------------------------------
  // The catalogue

  /** The statistics of a product, present only when it sold in some week. */
  function StatsFor(rows: seq<WeekSum>, id: int, sqrt: real -> real): Option<Stats>
    requires SqrtSpec(sqrt)
  {
    var xs := WeeksOf(rows, id);
    if xs == [] then None else Some(Statistics(xs, sqrt))
  }

  function SuggestFor(p: Product, rows: seq<WeekSum>, policies: map<int, Policy>, sqrt: real -> real)
    : Result<Suggestion, Error>
    requires SqrtSpec(sqrt)
  {
    Suggest(p, StatsFor(rows, p.id, sqrt), |WeeksOf(rows, p.id)|, PolicyFor(policies, p.id), sqrt)
  }

  /** One suggestion per catalogue product, in catalogue order; the first failure wins. */
  function BuildAll(products: seq<Product>, rows: seq<WeekSum>, policies: map<int, Policy>, sqrt: real -> real)
    : (r: Result<seq<Suggestion>, Error>)
    requires SqrtSpec(sqrt)
    ensures r.Success? ==> |r.value| == |products|
    ensures r.Success? ==> forall i :: 0 <= i < |products| ==>
              SuggestFor(products[i], rows, policies, sqrt) == Success(r.value[i])
    ensures r.Failure? <==> exists i :: 0 <= i < |products| && SuggestFor(products[i], rows, policies, sqrt).Failure?
  {
    if products == [] then Success([])
    else
      var init := products[..|products| - 1];
      var last := products[|products| - 1];
      assert forall i :: 0 <= i < |init| ==> init[i] == products[i];
      match BuildAll(init, rows, policies, sqrt)
      case Failure(e) => Failure(e)
      case Success(prev) =>
        match SuggestFor(last, rows, policies, sqrt)
        case Failure(e) => Failure(e)
        case Success(s) => Success(prev + [s])
  }

  lemma {:induction false} BuildAllFailure(products: seq<Product>, k: nat, rows: seq<WeekSum>,
                                           policies: map<int, Policy>, sqrt: real -> real)
    requires SqrtSpec(sqrt)
    requires k <= |products| && BuildAll(products[..k], rows, policies, sqrt).Failure?
    ensures BuildAll(products, rows, policies, sqrt) == BuildAll(products[..k], rows, policies, sqrt)
    decreases |products| - k
  {
    if k < |products| {
      assert products[..k + 1][..k] == products[..k];
      BuildAllFailure(products, k + 1, rows, policies, sqrt);
    } else {
      assert products[..k] == products;
    }
  }

  /** The suggestions whose rounded weekly mean is positive, in order. */
  function KeepSold(s: seq<Suggestion>): (r: seq<Suggestion>)
    ensures forall x :: x in r <==> x in s && x.weeklyMean > 0.0
  {
    if s == [] then []
    else (if s[0].weeklyMean > 0.0 then [s[0]] else []) + KeepSold(s[1..])
  }

  // ---------------------------------------------------------------------
  // Sorting by quantity to buy (a stable descending sort)

  predicate SortedDesc(s: seq<Suggestion>) {
    forall i, j :: 0 <= i < j < |s| ==> s[i].recommended >= s[j].recommended
  }

  function Insert(x: Suggestion, s: seq<Suggestion>): (r: seq<Suggestion>)
    ensures multiset(r) == multiset(s) + multiset{x}
  {
    if s == [] || x.recommended >= s[0].recommended then [x] + s
    else
      assert s == [s[0]] + s[1..];
      [s[0]] + Insert(x, s[1..])
  }

  lemma {:induction false} InsertSorted(x: Suggestion, s: seq<Suggestion>)
    requires SortedDesc(s)
    ensures SortedDesc(Insert(x, s))
  {
    if s != [] && x.recommended < s[0].recommended {
      InsertSorted(x, s[1..]);
      var t := Insert(x, s[1..]);
      forall y | y in t
        ensures s[0].recommended >= y.recommended
      {
        assert y in multiset(t);
        if y != x {
          assert y in multiset(s[1..]);
        }
      }
    }
  }

  /** OrderByDescending on the quantity to buy. */
  function SortDesc(s: seq<Suggestion>): (r: seq<Suggestion>)
    ensures multiset(r) == multiset(s)
    ensures SortedDesc(r)
  {
    if s == [] then []
    else
      assert s == [s[0]] + s[1..];
      var t := SortDesc(s[1..]);
      InsertSorted(s[0], t);
      Insert(s[0], t)
  }

  /** The suggestions that recommend exactly k units, in order. */
  function WithRecommended(s: seq<Suggestion>, k: int): seq<Suggestion> {
    if s == [] then []
    else (if s[0].recommended == k then [s[0]] else []) + WithRecommended(s[1..], k)
  }

  lemma WithRecommendedCons(a: Suggestion, rest: seq<Suggestion>, k: int)
    ensures WithRecommended([a] + rest, k) == (if a.recommended == k then [a] else []) + WithRecommended(rest, k)
  {
    assert ([a] + rest)[1..] == rest;
  }

  lemma {:induction false} InsertStable(x: Suggestion, s: seq<Suggestion>, k: int)
    ensures WithRecommended(Insert(x, s), k) ==
            (if x.recommended == k then [x] else []) + WithRecommended(s, k)
  {
    if s == [] || x.recommended >= s[0].recommended {
      WithRecommendedCons(x, s, k);
    } else {
      InsertStable(x, s[1..], k);
      assert Insert(x, s) == [s[0]] + Insert(x, s[1..]);
      assert s == [s[0]] + s[1..];
      ConsStable(s[0], Insert(x, s[1..]), s[1..], if x.recommended == k then [x] else [], k);
    }
  }

  /**
   * Putting an element that does not have k in front of two sequences keeps
   * the relation between their k-elements.
   */
  lemma ConsStable(a: Suggestion, t: seq<Suggestion>, rest: seq<Suggestion>, mine: seq<Suggestion>, k: int)
    requires mine == [] || a.recommended != k
    requires WithRecommended(t, k) == mine + WithRecommended(rest, k)
    ensures WithRecommended([a] + t, k) == mine + WithRecommended([a] + rest, k)
  {
    WithRecommendedCons(a, t, k);
    WithRecommendedCons(a, rest, k);
    if a.recommended == k {
      assert mine == [];
    }
  }

  /** Suggestions recommending the same quantity keep their relative order. */
  lemma {:induction false} SortDescStable(s: seq<Suggestion>, k: int)
    ensures WithRecommended(SortDesc(s), k) == WithRecommended(s, k)
  {
    if s != [] {
      SortDescStable(s[1..], k);
      InsertStable(s[0], SortDesc(s[1..]), k);
    }
  }

  lemma KeepSoldCons(a: Suggestion, rest: seq<Suggestion>)
    ensures KeepSold([a] + rest) == (if a.weeklyMean > 0.0 then [a] else []) + KeepSold(rest)
  {
    assert ([a] + rest)[1..] == rest;
  }

  /** Keeping the sold suggestions drops some and never adds or repeats one. */
  lemma {:induction false} KeepSoldSub(s: seq<Suggestion>)
    ensures multiset(KeepSold(s)) <= multiset(s)
  {
    if s != [] {
      KeepSoldSub(s[1..]);
      assert s == [s[0]] + s[1..];
    }
  }

  /** Keeping the sold suggestions keeps their order: it commutes with picking one quantity. */
  lemma {:induction false} KeepSoldStable(s: seq<Suggestion>, k: int)
    ensures WithRecommended(KeepSold(s), k) == KeepSold(WithRecommended(s, k))
  {
    if s != [] {
      var a, rest := s[0], s[1..];
      assert s == [a] + rest;
      KeepSoldStable(rest, k);
      var w := WithRecommended(rest, k);
      var both: seq<Suggestion> := if a.weeklyMean > 0.0 && a.recommended == k then [a] else [];
      KeepSoldCons(a, rest);
      WithRecommendedCons(a, rest, k);
      var kept := KeepSold(rest);
      if a.weeklyMean > 0.0 {
        WithRecommendedCons(a, kept, k);
        assert WithRecommended(KeepSold(s), k) == both + WithRecommended(kept, k);
      } else {
        assert KeepSold(s) == kept;
        assert WithRecommended(KeepSold(s), k) == both + WithRecommended(kept, k);
      }
      if a.recommended == k {
        KeepSoldCons(a, w);
        assert KeepSold(WithRecommended(s, k)) == both + KeepSold(w);
      } else {
        assert WithRecommended(s, k) == w;
        assert KeepSold(WithRecommended(s, k)) == both + KeepSold(w);
      }
    }
  }

  /** No two suggestions are for the same product. */
  predicate DistinctIds(s: seq<Suggestion>) {
    forall i, j :: 0 <= i < j < |s| ==> s[i].productId != s[j].productId
  }

  lemma DistinctCons(a: Suggestion, t: seq<Suggestion>)
    requires DistinctIds(t)
    requires forall y :: y in t ==> y.productId != a.productId
    ensures DistinctIds([a] + t)
  {
    var u := [a] + t;
    forall i, j | 0 <= i < j < |u|
      ensures u[i].productId != u[j].productId
    {
      assert u[j] == t[j - 1];
      if i > 0 {
        assert u[i] == t[i - 1];
      }
    }
  }

  lemma {:induction false} KeepSoldDistinct(s: seq<Suggestion>)
    requires DistinctIds(s)
    ensures DistinctIds(KeepSold(s))
  {
    if s != [] {
      assert DistinctIds(s[1..]);
      KeepSoldDistinct(s[1..]);
      forall y | y in KeepSold(s[1..])
        ensures y.productId != s[0].productId
      {
        var j :| 0 <= j < |s[1..]| && s[1..][j] == y;
        assert s[j + 1] == y;
      }
      if s[0].weeklyMean > 0.0 {
        DistinctCons(s[0], KeepSold(s[1..]));
      } else {
        assert KeepSold(s) == [] + KeepSold(s[1..]);
      }
    }
  }

  lemma {:induction false} InsertDistinct(x: Suggestion, s: seq<Suggestion>)
    requires DistinctIds(s)
    requires forall y :: y in s ==> y.productId != x.productId
    ensures DistinctIds(Insert(x, s))
  {
    if s == [] || x.recommended >= s[0].recommended {
      DistinctCons(x, s);
    } else {
      assert DistinctIds(s[1..]);
      InsertDistinct(x, s[1..]);
      var t := Insert(x, s[1..]);
      forall y | y in t
        ensures y.productId != s[0].productId
      {
        assert y in multiset(t);
        if y != x {
          assert y in multiset(s[1..]);
          var j :| 0 <= j < |s[1..]| && s[1..][j] == y;
          assert s[j + 1] == y;
        }
      }
      DistinctCons(s[0], t);
    }
  }

  /** Sorting never puts a product in twice. */
  lemma {:induction false} SortDescDistinct(s: seq<Suggestion>)
    requires DistinctIds(s)
    ensures DistinctIds(SortDesc(s))
  {
    if s != [] {
      assert DistinctIds(s[1..]);
      SortDescDistinct(s[1..]);
      var t := SortDesc(s[1..]);
      forall y | y in t
        ensures y.productId != s[0].productId
      {
        assert y in multiset(t);
        assert y in multiset(s[1..]);
        var j :| 0 <= j < |s[1..]| && s[1..][j] == y;
        assert s[j + 1] == y;
      }
      InsertDistinct(s[0], t);
    }
  }

  // ---------------------------------------------------------------------
  // The whole estimate

  /**
   * The purchase suggestions for the products that sold in the window: the
   * weekly rows of the selected lines, the policy dictionary, one suggestion
   * per catalogue product, then only those with a positive rounded mean,
   * sorted by the quantity to buy.
   */
  function Replenish(lines: seq<SaleLine>, products: seq<Product>, policyRows: seq<PolicyRow>,
                     today: int, window: int, warehouse: Option<int>, week: int -> int, sqrt: real -> real)
    : Result<seq<Suggestion>, Error>
    requires SqrtSpec(sqrt)
  {
    var cutoff :- Cutoff(today, window);
    var rows := Aggregate(Window(lines, cutoff, warehouse), week);
    var policies :- ToPolicyMap(policyRows);
    var all :- BuildAll(products, rows, policies, sqrt);
    Success(SortDesc(KeepSold(all)))
  }

  /** CalcularAsync: the same pipeline, building the suggestions in a loop over the catalogue. */
  method Calculate(lines: seq<SaleLine>, products: seq<Product>, policyRows: seq<PolicyRow>,
                   today: int, window: int, warehouse: Option<int>, week: int -> int, sqrt: real -> real)
    returns (r: Result<seq<Suggestion>, Error>)
    requires SqrtSpec(sqrt)
    ensures r == Replenish(lines, products, policyRows, today, window, warehouse, week, sqrt)
  {
    var cutoff := Cutoff(today, window);
    if cutoff.Failure? {
      return Failure(cutoff.error);
    }
    var rows := Aggregate(Window(lines, cutoff.value, warehouse), week);
    var pm := ToPolicyMap(policyRows);
    if pm.Failure? {
      return Failure(pm.error);
    }
    var policies := pm.value;
    var res: seq<Suggestion> := [];
    for i := 0 to |products|
      invariant BuildAll(products[..i], rows, policies, sqrt) == Success(res)
    {
      var s := SuggestFor(products[i], rows, policies, sqrt);
      BuildAllSnoc(products, i, rows, policies, sqrt);
      if s.Failure? {
        BuildAllFailure(products, i + 1, rows, policies, sqrt);
        return Failure(s.error);
      }
      res := res + [s.value];
    }
    assert products[..|products|] == products;
    return Success(SortDesc(KeepSold(res)));
  }

  /** Building one product more adds its suggestion, or stops at its failure. */
  lemma BuildAllSnoc(products: seq<Product>, i: nat, rows: seq<WeekSum>, policies: map<int, Policy>,
                     sqrt: real -> real)
    requires SqrtSpec(sqrt) && i < |products|
    requires BuildAll(products[..i], rows, policies, sqrt).Success?
    ensures var prev := BuildAll(products[..i], rows, policies, sqrt).value;
            BuildAll(products[..i + 1], rows, policies, sqrt) ==
              match SuggestFor(products[i], rows, policies, sqrt)
              case Failure(e) => Failure(e)
              case Success(x) => Success(prev + [x])
  {
    assert products[..i + 1][..i] == products[..i];
  }

  // ---------------------------------------------------------------------
  // Properties of the estimate

  /** The suggestions come sorted by the quantity to buy, largest first. */
  lemma ReplenishSorted(lines: seq<SaleLine>, products: seq<Product>, policyRows: seq<PolicyRow>,
                        today: int, window: int, warehouse: Option<int>, week: int -> int, sqrt: real -> real)
    requires SqrtSpec(sqrt)
    ensures var r := Replenish(lines, products, policyRows, today, window, warehouse, week, sqrt);
            r.Success? ==> SortedDesc(r.value)
  {
  }

  /**
   * The estimate fails exactly when the window does not start at a date, on
   * a repeated policy row, or for a product whose protection period is
   * negative.
   */
  lemma ReplenishFails(lines: seq<SaleLine>, products: seq<Product>, policyRows: seq<PolicyRow>,
                       today: int, window: int, warehouse: Option<int>, week: int -> int, sqrt: real -> real)
    requires SqrtSpec(sqrt)
    ensures ToPolicyMap(policyRows).Failure? <==> !DistinctProducts(policyRows)
    ensures Replenish(lines, products, policyRows, today, window, warehouse, week, sqrt).Failure? <==>
            Cutoff(today, window).Failure?
            || ToPolicyMap(policyRows).Failure?
            || exists i :: 0 <= i < |products| &&
                 var pol := PolicyFor(ToPolicyMap(policyRows).value, products[i].id);
                 ProtectionPeriod(pol) < 0
  {
    ToPolicyMapSucceeds(policyRows);
    if Cutoff(today, window).Success? && DistinctProducts(policyRows) {
      var rows := Aggregate(Window(lines, Cutoff(today, window).value, warehouse), week);
      var policies := ToPolicyMap(policyRows).value;
      var b := BuildAll(products, rows, policies, sqrt);
      if b.Failure? {
        var i :| 0 <= i < |products| && SuggestFor(products[i], rows, policies, sqrt).Failure?;
      } else {
        forall i | 0 <= i < |products|
          ensures var pol := PolicyFor(policies, products[i].id); ProtectionPeriod(pol) >= 0
        {
          assert SuggestFor(products[i], rows, policies, sqrt).Success?;
        }
      }
    }
  }

  /** Every suggestion is for a product that sold at least once in the window. */
  lemma ReplenishOnlySold(lines: seq<SaleLine>, products: seq<Product>, policyRows: seq<PolicyRow>,
                          today: int, window: int, warehouse: Option<int>, week: int -> int, sqrt: real -> real, s: Suggestion)
    requires SqrtSpec(sqrt)
    requires var r := Replenish(lines, products, policyRows, today, window, warehouse, week, sqrt);
             r.Success? && s in r.value
    ensures exists l :: l in lines && l.productId == s.productId
                        && Selected(l, Cutoff(today, window).value, warehouse)
  {
    var sel := Window(lines, Cutoff(today, window).value, warehouse);
    var rows := Aggregate(sel, week);
    var policies := ToPolicyMap(policyRows).value;
    var all := BuildAll(products, rows, policies, sqrt).value;
    assert s in multiset(SortDesc(KeepSold(all)));
    assert s in KeepSold(all);
    var i :| 0 <= i < |all| && all[i] == s;
    var p := products[i];
    assert p.id == s.productId;
    if WeeksOf(rows, p.id) == [] {
      RoundAtPositive(0.0, 1000.0);
      assert false;
    }
    if forall l :: l in sel ==> l.productId != p.id {
      WeeksOfEmptyAggregate(sel, p.id, week);
      assert false;
    }
  }

  lemma {:induction false} WeeksOfEmptyAggregate(lines: seq<SaleLine>, p: int, week: int -> int)
    requires forall l :: l in lines ==> l.productId != p
    ensures WeeksOf(Aggregate(lines, week), p) == []
  {
    var rows := Aggregate(lines, week);
    NoRowsNoWeeks(rows, p);
  }

  lemma {:induction false} NoRowsNoWeeks(rows: seq<WeekSum>, p: int)
    requires forall k :: k in Keys(rows) ==> k.0 != p
    ensures WeeksOf(rows, p) == []
  {
    if rows != [] {
      assert rows == [rows[0]] + rows[1..];
      KeysCons(rows[0], rows[1..]);
      NoRowsNoWeeks(rows[1..], p);
    }
  }

  /** A catalogue product whose rounded weekly mean is positive is suggested. */
  lemma ReplenishComplete(lines: seq<SaleLine>, products: seq<Product>, policyRows: seq<PolicyRow>,
                          today: int, window: int, warehouse: Option<int>, week: int -> int, sqrt: real -> real, i: nat)
    requires SqrtSpec(sqrt)
    requires i < |products|
    requires var r := Replenish(lines, products, policyRows, today, window, warehouse, week, sqrt);
             r.Success?
    ensures var rows := Aggregate(Window(lines, Cutoff(today, window).value, warehouse), week);
            var s := SuggestFor(products[i], rows, ToPolicyMap(policyRows).value, sqrt).value;
            s.weeklyMean > 0.0 ==> s in Replenish(lines, products, policyRows, today, window, warehouse, week, sqrt).value
  {
    var rows := Aggregate(Window(lines, Cutoff(today, window).value, warehouse), week);
    var policies := ToPolicyMap(policyRows).value;
    var all := BuildAll(products, rows, policies, sqrt).value;
    var s := all[i];
    if s.weeklyMean > 0.0 {
      assert s in KeepSold(all);
      assert s in multiset(KeepSold(all));
      assert s in multiset(SortDesc(KeepSold(all)));
    }
  }

  /**
   * Suggestions recommending the same quantity come in catalogue order:
   * they are, in order, the sold ones among the catalogue-ordered
   * suggestions with that quantity.
   */
  lemma ReplenishStable(lines: seq<SaleLine>, products: seq<Product>, policyRows: seq<PolicyRow>,
                        today: int, window: int, warehouse: Option<int>, week: int -> int, sqrt: real -> real, k: int)
    requires SqrtSpec(sqrt)
    requires Replenish(lines, products, policyRows, today, window, warehouse, week, sqrt).Success?
    ensures var rows := Aggregate(Window(lines, Cutoff(today, window).value, warehouse), week);
            var all := BuildAll(products, rows, ToPolicyMap(policyRows).value, sqrt).value;
            (forall i :: 0 <= i < |products| ==> all[i].productId == products[i].id)
            && WithRecommended(Replenish(lines, products, policyRows, today, window, warehouse, week, sqrt).value, k)
               == KeepSold(WithRecommended(all, k))
  {
    var rows := Aggregate(Window(lines, Cutoff(today, window).value, warehouse), week);
    var policies := ToPolicyMap(policyRows).value;
    var all := BuildAll(products, rows, policies, sqrt).value;
    forall i | 0 <= i < |products|
      ensures all[i].productId == products[i].id
    {
      assert SuggestFor(products[i], rows, policies, sqrt) == Success(all[i]);
    }
    SortDescStable(KeepSold(all), k);
    KeepSoldStable(all, k);
  }

  /** A catalogue without repeated products gives at most one suggestion per product. */
  lemma ReplenishOnePerProduct(lines: seq<SaleLine>, products: seq<Product>, policyRows: seq<PolicyRow>,
                               today: int, window: int, warehouse: Option<int>, week: int -> int, sqrt: real -> real)
    requires SqrtSpec(sqrt)
    requires forall i, j :: 0 <= i < j < |products| ==> products[i].id != products[j].id
    ensures var r := Replenish(lines, products, policyRows, today, window, warehouse, week, sqrt);
            r.Success? ==> DistinctIds(r.value)
  {
    var r := Replenish(lines, products, policyRows, today, window, warehouse, week, sqrt);
    if r.Success? {
      var rows := Aggregate(Window(lines, Cutoff(today, window).value, warehouse), week);
      var policies := ToPolicyMap(policyRows).value;
      var all := BuildAll(products, rows, policies, sqrt).value;
      forall i | 0 <= i < |products|
        ensures all[i].productId == products[i].id
      {
        assert SuggestFor(products[i], rows, policies, sqrt) == Success(all[i]);
      }
      KeepSoldDistinct(all);
      SortDescDistinct(KeepSold(all));
    }
  }
}
