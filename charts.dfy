/**
 * The in-memory post-processing of the chart endpoints: the gender label
 * normaliser, zero-filled month series, the warehouse-by-month heatmap, the
 * sales summary ratios, the seller comparison and trend, and the
 * top-products-by-warehouse chart. The database queries behind them are
 * inputs: sequences of already grouped rows.
 */
module Charts {
  import opened Wrappers
  import opened Text
  import opened Numeric

  // ---------------------------------------------------------------------
  // Gender labels

  /** The label of a blank gender. */
  const NoGender: string := "(Sin g\U{00E9}nero)"

  /** The text before the first '-' (all of it when there is none), trimmed when cut. */
  function CutAtDash(s: string): (r: string)
    ensures '-' !in r
    ensures '-' !in s ==> r == s
  {
    var dash := IndexOf(s, '-');
    if dash >= 0 then
      var t := s[..dash];
      NoDashTrim(t);
      Trim(DotNet, t)
    else s
  }

  /** The switch on the upper-cased text: the four spellings that have a canonical label. */
  function KnownLabel(up: string): Option<string> {
    if up == "HOMBRE" then Some("Hombre")
    else if up == "MUJER" then Some("Mujer")
    else if up == "NI\U{00D1}O" then Some("Ni\U{00F1}o")
    else if up == "NINO" then Some("Ni\U{00F1}o")
    else None
  }

  function Canonical(t: string): string {
    match KnownLabel(Upper(t))
    case Some(l) => l
    case None => t
  }

  /**
   * Normalizar, the local function of the by-gender charts: blank → the
   * placeholder, otherwise cut at the first '-', trimmed, and one of the
   * known spellings mapped to its label regardless of case.
   */
  function NormalizeGender(raw: Option<string>): (r: string)
    ensures '-' !in r
  {
    var s := Trim(DotNet, raw.GetOr(""));
    if |s| == 0 then NoGenderNoDash(); NoGender
    else
      var t := CutAtDash(s);
      CanonicalNoDash(t);
      Canonical(t)
  }

  lemma NoGenderNoDash()
    ensures '-' !in NoGender
  {
  }

  lemma CanonicalNoDash(t: string)
    requires '-' !in t
    ensures '-' !in Canonical(t)
  {
    var up := Upper(t);
    if up == "HOMBRE" {
      assert Canonical(t) == "Hombre";
    } else if up == "MUJER" {
      assert Canonical(t) == "Mujer";
    } else if up == "NI\U{00D1}O" || up == "NINO" {
      assert Canonical(t) == "Ni\U{00F1}o";
    }
  }

  /** A missing or blank gender gets the placeholder. */
  lemma GenderBlank(raw: Option<string>)
    requires raw.Some? ==> IsBlank(raw.value)
    ensures NormalizeGender(raw) == NoGender
  {
    TrimEmptyIffBlank(DotNet, raw.GetOr(""));
  }

  /** A non-blank text starting with '-' after trimming gives the empty label, not the placeholder. */
  lemma GenderLeadingDash(raw: string)
    requires var s := Trim(DotNet, raw); s != [] && s[0] == '-'
    ensures NormalizeGender(Some(raw)) == ""
  {
    CutAtLeadingDash(Trim(DotNet, raw));
    CanonicalEmpty();
  }

  lemma CutAtLeadingDash(s: string)
    requires s != [] && s[0] == '-'
    ensures CutAtDash(s) == []
  {
    assert IndexOf(s, '-') == 0;
    assert s[..0] == [];
    TrimEmptyIffBlank(DotNet, []);
  }

  lemma CanonicalEmpty()
    ensures Canonical([]) == []
  {
    assert Upper([]) == [];
  }

  /** Several cased spellings of a known gender give the same label. */
  lemma GenderIgnoresCase(a: string, b: string)
    requires '-' !in a && '-' !in b
    requires EqualsIgnoreCase(Trim(DotNet, a), Trim(DotNet, b))
    requires KnownLabel(Upper(Trim(DotNet, a))).Some?
    ensures NormalizeGender(Some(a)) == NormalizeGender(Some(b)) == KnownLabel(Upper(Trim(DotNet, a))).value
  {
    NoDashTrim(a);
    NoDashTrim(b);
  }

  /** Any text with no '-' whose upper-case form is not one of the known spellings is kept, trimmed. */
  lemma GenderKeeps(raw: string)
    requires '-' !in raw && !IsBlank(raw)
    requires KnownLabel(Upper(Trim(DotNet, raw))).None?
    ensures NormalizeGender(Some(raw)) == Trim(DotNet, raw)
  {
    NoDashTrim(raw);
    TrimEmptyIffBlank(DotNet, raw);
  }

  lemma NoDashTrim(s: string)
    requires '-' !in s
    ensures '-' !in Trim(DotNet, s)
  {
    if '-' in Trim(DotNet, s) {
      TrimKeepsOnly(DotNet, s, '-');
    }
  }

  lemma TrimmedFixed(s: string)
    requires Trimmed(DotNet, s)
    ensures Trim(DotNet, s) == s
  {
    TrimUnique(DotNet, [], s, []);
    assert [] + s + [] == s;
  }

  lemma CutTrimmed(s: string)
    requires Trimmed(DotNet, s)
    ensures Trimmed(DotNet, CutAtDash(s))
  {
  }

  /** A trimmed text without '-' that its own case mapping leaves alone normalises to itself. */
  lemma FixedPoint(t: string)
    requires t != [] && Trimmed(DotNet, t) && '-' !in t
    requires Canonical(t) == t
    ensures NormalizeGender(Some(t)) == t
  {
    TrimmedFixed(t);
  }

  lemma PlaceholderFixed()
    ensures NormalizeGender(Some(NoGender)) == NoGender
  {
    assert |Upper(NoGender)| == 12;
    FixedPoint(NoGender);
  }

  lemma HombreFixed()
    ensures NormalizeGender(Some("Hombre")) == "Hombre"
  {
    assert Upper("Hombre") == "HOMBRE";
    FixedPoint("Hombre");
  }

  lemma MujerFixed()
    ensures NormalizeGender(Some("Mujer")) == "Mujer"
  {
    assert Upper("Mujer") == "MUJER";
    FixedPoint("Mujer");
  }

  lemma NinoFixed()
    ensures NormalizeGender(Some("Ni\U{00F1}o")) == "Ni\U{00F1}o"
  {
    assert Upper("Ni\U{00F1}o") == "NI\U{00D1}O";
    FixedPoint("Ni\U{00F1}o");
  }

  /** Each label of the switch normalises to itself. */
  lemma KnownLabelFixed(up: string)
    requires KnownLabel(up).Some?
    ensures NormalizeGender(Some(KnownLabel(up).value)) == KnownLabel(up).value
  {
    if up == "HOMBRE" {
      HombreFixed();
    } else if up == "MUJER" {
      MujerFixed();
    } else {
      NinoFixed();
    }
  }

  /** Every non-empty label is a fixed point: normalising a label again gives it back. */
  lemma GenderStable(raw: Option<string>)
    requires NormalizeGender(raw) != ""
    ensures NormalizeGender(Some(NormalizeGender(raw))) == NormalizeGender(raw)
  {
    var s := Trim(DotNet, raw.GetOr(""));
    if |s| == 0 {
      PlaceholderFixed();
    } else {
      var t := CutAtDash(s);
      assert NormalizeGender(raw) == Canonical(t);
      CutTrimmed(s);
      if KnownLabel(Upper(t)).Some? {
        KnownLabelFixed(Upper(t));
      } else {
        FixedPoint(t);
      }
    }
  }

  // ---------------------------------------------------------------------
  // Month series

  /** The net sales of one month, a row of the month aggregate. */
  datatype MonthTotal = MonthTotal(month: int, neto: real)

  /** FirstOrDefault(x => x.Mes == m)?.Neto: the net of the first row of month m, if any. */
  function FirstNeto(aggs: seq<MonthTotal>, m: int): Option<real> {
    if aggs == [] then None
    else if aggs[0].month == m then Some(aggs[0].neto)
    else FirstNeto(aggs[1..], m)
  }

  /** The twelve monthly values, January first, 0 where no row has the month. */
  function MonthSeries(aggs: seq<MonthTotal>): (r: seq<real>)
    ensures |r| == 12
  {
    seq(12, i requires 0 <= i < 12 => FirstNeto(aggs, i + 1).GetOr(0.0))
  }

  predicate DistinctMonths(aggs: seq<MonthTotal>) {
    forall j, k :: 0 <= j < k < |aggs| ==> aggs[j].month != aggs[k].month
  }

  lemma {:induction false} FirstNetoAt(aggs: seq<MonthTotal>, k: nat)
    requires k < |aggs| && DistinctMonths(aggs)
    ensures FirstNeto(aggs, aggs[k].month) == Some(aggs[k].neto)
  {
    if k > 0 {
      FirstNetoAt(aggs[1..], k - 1);
    }
  }

  lemma {:induction false} FirstNetoNone(aggs: seq<MonthTotal>, m: int)
    requires forall k :: 0 <= k < |aggs| ==> aggs[k].month != m
    ensures FirstNeto(aggs, m) == None
  {
    if aggs != [] {
      FirstNetoNone(aggs[1..], m);
    }
  }

  /** A month with a row shows that row's net (the grouping gives one row per month). */
  lemma MonthSeriesHit(aggs: seq<MonthTotal>, k: nat)
    requires k < |aggs| && DistinctMonths(aggs)
    requires 1 <= aggs[k].month <= 12
    ensures MonthSeries(aggs)[aggs[k].month - 1] == aggs[k].neto
  {
    FirstNetoAt(aggs, k);
  }

  /** A month without a row shows 0. */
  lemma MonthSeriesMiss(aggs: seq<MonthTotal>, m: int)
    requires 1 <= m <= 12
    requires forall k :: 0 <= k < |aggs| ==> aggs[k].month != m
    ensures MonthSeries(aggs)[m - 1] == 0.0
  {
    FirstNetoNone(aggs, m);
  }

  // ---------------------------------------------------------------------
  // Seller trend

  /** The monthly totals of one employee, a row of the monthly aggregate. */
  datatype EmployeeMonth = EmployeeMonth(id: int, month: int, neto: real, units: real)

  datatype TrendPoint = TrendPoint(month: int, neto: real, units: real)

  datatype SellerTrend = SellerTrend(id: int, name: string, points: seq<TrendPoint>)

  /** Enumerable.Range rejects its arguments (ArgumentOutOfRangeException). */
  datatype RangeError = ArgumentOutOfRange

  /** Enumerable.Range(start, count): count consecutive integers, or an error. */
  function Range(start: int, count: int): (r: Result<seq<int>, RangeError>)
    ensures r.Success? <==> 0 <= count && start + count - 1 <= MaxInt32
    ensures r.Success? ==> |r.value| == count && forall k :: 0 <= k < count ==> r.value[k] == start + k
  {
    if 0 <= count && start + count - 1 <= MaxInt32 then
      Success(seq(count, k requires 0 <= k < count => start + k))
    else Failure(ArgumentOutOfRange)
  }

  /** FirstOrDefault(x => x.Id == id && x.Mes == m). */
  function FirstRow(rows: seq<EmployeeMonth>, id: int, m: int): Option<EmployeeMonth> {
    if rows == [] then None
    else if rows[0].id == id && rows[0].month == m then Some(rows[0])
    else FirstRow(rows[1..], id, m)
  }

  /** The point of month m: the first row's totals, 0 when there is none. */
  function PointOf(rows: seq<EmployeeMonth>, id: int, m: int): TrendPoint {
    match FirstRow(rows, id, m)
    case Some(row) => TrendPoint(m, row.neto, row.units)
    case None => TrendPoint(m, 0.0, 0.0)
  }

  function EmployeeLabel(id: int): string {
    "Empleado " + IntToString(id)
  }

  /** The series of one employee over the given months. */
  function TrendOf(rows: seq<EmployeeMonth>, id: int, months: seq<int>): (t: SellerTrend)
    ensures t.id == id && t.name == EmployeeLabel(id) && |t.points| == |months|
    ensures forall k :: 0 <= k < |months| ==> t.points[k] == PointOf(rows, id, months[k])
  {
    SellerTrend(id, EmployeeLabel(id), seq(|months|, k requires 0 <= k < |months| => PointOf(rows, id, months[k])))
  }

  /**
   * VendedoresTrend after its queries: one series per top employee over the
   * months monthFrom..monthTo (1..12 by default). The month count is
   * computed in 32-bit arithmetic, and the range is built lazily while the
   * result is written, so a bad range fails only when there is a series.
   */
  function Trend(rows: seq<EmployeeMonth>, topIds: seq<int>, monthFrom: Option<int>, monthTo: Option<int>)
    : (r: Result<seq<SellerTrend>, RangeError>)
    requires monthFrom.Some? ==> IsInt32(monthFrom.value)
    requires monthTo.Some? ==> IsInt32(monthTo.value)
    ensures r.Success? ==> |r.value| == |topIds| && forall j :: 0 <= j < |topIds| ==> r.value[j].id == topIds[j]
    ensures r.Success? ==>
              var from := monthFrom.GetOr(1);
              var to := monthTo.GetOr(12);
              forall j :: 0 <= j < |topIds| ==>
                r.value[j].name == EmployeeLabel(topIds[j]) && |r.value[j].points| == Wrap32(to - from + 1)
                && forall k :: 0 <= k < |r.value[j].points| ==> r.value[j].points[k] == PointOf(rows, topIds[j], from + k)
  {
    var from := monthFrom.GetOr(1);
    var to := monthTo.GetOr(12);
    if topIds == [] then Success([])
    else
      match Range(from, Wrap32(to - from + 1))
      case Failure(e) => Failure(e)
      case Success(months) =>
        Success(seq(|topIds|, j requires 0 <= j < |topIds| => TrendOf(rows, topIds[j], months)))
  }

  /** Without bounds every series has twelve points, January to December, zero-filled. */
  lemma TrendDefault(rows: seq<EmployeeMonth>, topIds: seq<int>, j: nat, k: nat)
    requires j < |topIds| && k < 12
    ensures var r := Trend(rows, topIds, None, None);
            r.Success? && |r.value[j].points| == 12 && r.value[j].points[k] == PointOf(rows, topIds[j], k + 1)
  {
  }

  /**
   * With explicit bounds whose month count fits 32 bits, every series has
   * one point per month monthFrom..monthTo, zero-filled where there is no row.
   */
  lemma TrendMonths(rows: seq<EmployeeMonth>, topIds: seq<int>, from: int, to: int, j: nat, k: nat)
    requires IsInt32(from) && IsInt32(to) && IsInt32(to - from + 1)
    requires from <= to && j < |topIds| && k <= to - from
    ensures var r := Trend(rows, topIds, Some(from), Some(to));
            r.Success? && |r.value[j].points| == to - from + 1
            && r.value[j].points[k] == PointOf(rows, topIds[j], from + k)
  {
  }

  /** Within 32-bit bounds, the trend fails exactly when there is a series and monthTo < monthFrom - 1. */
  lemma TrendFails(rows: seq<EmployeeMonth>, topIds: seq<int>, from: int, to: int)
    requires IsInt32(from) && IsInt32(to) && IsInt32(to - from + 1)
    ensures Trend(rows, topIds, Some(from), Some(to)).Failure? <==> topIds != [] && to < from - 1
  {
  }

  /** A month with a row takes that row's totals (the grouping gives one row per employee and month). */
  lemma {:induction false} PointOfHit(rows: seq<EmployeeMonth>, k: nat)
    requires k < |rows|
    requires forall j :: 0 <= j < k ==> rows[j].id != rows[k].id || rows[j].month != rows[k].month
    ensures PointOf(rows, rows[k].id, rows[k].month) == TrendPoint(rows[k].month, rows[k].neto, rows[k].units)
  {
    if k > 0 {
      PointOfHit(rows[1..], k - 1);
    }
  }

  /** A month without a row for the employee is zero. */
  lemma {:induction false} PointOfMiss(rows: seq<EmployeeMonth>, id: int, m: int)
    requires forall j :: 0 <= j < |rows| ==> rows[j].id != id || rows[j].month != m
    ensures PointOf(rows, id, m) == TrendPoint(m, 0.0, 0.0)
  {
    if rows != [] {
      PointOfMiss(rows[1..], id, m);
    }
  }

  /** The net of an employee's rows, as month rows. */
  function NetByMonth(rows: seq<EmployeeMonth>, id: int): seq<MonthTotal> {
    if rows == [] then []
    else (if rows[0].id == id then [MonthTotal(rows[0].month, rows[0].neto)] else []) + NetByMonth(rows[1..], id)
  }

  lemma {:induction false} FirstRowNeto(rows: seq<EmployeeMonth>, id: int, m: int)
    ensures FirstNeto(NetByMonth(rows, id), m) == match FirstRow(rows, id, m) case Some(row) => Some(row.neto) case None => None
  {
    if rows != [] {
      FirstRowNeto(rows[1..], id, m);
      var rest := NetByMonth(rows[1..], id);
      if rows[0].id == id {
        assert ([MonthTotal(rows[0].month, rows[0].neto)] + rest)[1..] == rest;
      } else {
        assert [] + rest == rest;
      }
    }
  }

  /** The default trend of an employee shows the same nets as the zero-filled month series of its rows. */
  lemma TrendMatchesMonthSeries(rows: seq<EmployeeMonth>, topIds: seq<int>, j: nat, k: nat)
    requires j < |topIds| && k < 12
    ensures var r := Trend(rows, topIds, None, None);
            r.Success? && r.value[j].points[k].neto == MonthSeries(NetByMonth(rows, topIds[j]))[k]
  {
    FirstRowNeto(rows, topIds[j], k + 1);
  }

  // ---------------------------------------------------------------------
  // Warehouse axis, month series per warehouse, heatmap

  /** The net sales of one warehouse in one month, a row of the (month, warehouse) aggregate. */
  datatype StoreMonth = StoreMonth(month: int, store: int, neto: real)

  /** A series of values with its legend. */
  datatype NamedSeries = NamedSeries(name: string, data: seq<real>)

  /** One heatmap cell: month index, warehouse index, value. */
  datatype Cell = Cell(x: int, y: int, value: real)

  datatype Heatmap = Heatmap(xCount: nat, yIds: seq<int>, yCategories: seq<string>, data: seq<Cell>, max: real)

  predicate Increasing(xs: seq<int>) {
    forall i, j :: 0 <= i < j < |xs| ==> xs[i] < xs[j]
  }

  /** Inserts x into a strictly increasing sequence unless it is already there. */
  function InsertDistinct(x: int, xs: seq<int>): (r: seq<int>)
    requires Increasing(xs)
    ensures Increasing(r)
    ensures forall y :: y in r <==> y == x || y in xs
  {
    if xs == [] then [x]
    else if x < xs[0] then [x] + xs
    else if x == xs[0] then xs
    else
      var r := InsertDistinct(x, xs[1..]);
      ConsIncreasing(x, xs, r);
      [xs[0]] + r
  }

  /** The head of xs stays in front of anything x and the tail of xs can give. */
  lemma ConsIncreasing(x: int, xs: seq<int>, r: seq<int>)
    requires Increasing(xs) && xs != [] && xs[0] < x && Increasing(r)
    requires forall y :: y in r <==> y == x || y in xs[1..]
    ensures Increasing([xs[0]] + r)
  {
    forall i | 0 <= i < |r|
      ensures xs[0] < r[i]
    {
      assert r[i] in r;
      if r[i] != x {
        var j :| 0 <= j < |xs[1..]| && xs[1..][j] == r[i];
        assert xs[j + 1] == r[i];
      }
    }
    var t := [xs[0]] + r;
    forall i, j | 0 <= i < j < |t|
      ensures t[i] < t[j]
    {
      if i > 0 {
        assert t[i] == r[i - 1] && t[j] == r[j - 1];
      } else {
        assert t[j] == r[j - 1];
      }
    }
  }

  /** Distinct().OrderBy(x => x). */
  function SortedDistinct(xs: seq<int>): (r: seq<int>)
    ensures Increasing(r)
    ensures forall y :: y in r <==> y in xs
  {
    if xs == [] then [] else InsertDistinct(xs[0], SortedDistinct(xs[1..]))
  }

  function StoresOf(aggs: seq<StoreMonth>): (r: seq<int>)
    ensures |r| == |aggs| && forall k :: 0 <= k < |aggs| ==> r[k] == aggs[k].store
  {
    seq(|aggs|, k requires 0 <= k < |aggs| => aggs[k].store)
  }

  /** The warehouses of the axis: the requested ones, or else those with data, distinct and ascending. */
  function AxisIds(requested: seq<int>, aggs: seq<StoreMonth>): (r: seq<int>)
    ensures Increasing(r)
    ensures requested != [] ==> forall y :: y in r <==> y in requested
    ensures requested == [] ==> forall y :: y in r <==> exists k :: 0 <= k < |aggs| && aggs[k].store == y
  {
    if requested != [] then SortedDistinct(requested)
    else
      var r := SortedDistinct(StoresOf(aggs));
      assert forall y :: y in StoresOf(aggs) <==> exists k :: 0 <= k < |aggs| && aggs[k].store == y;
      r
  }

  /** "Almacén {id}". */
  function StoreLabel(id: int): string {
    "Almac\U{00E9}n " + IntToString(id)
  }

  /** Different warehouses get different labels. */
  lemma StoreLabelInjective(a: int, b: int)
    requires StoreLabel(a) == StoreLabel(b)
    ensures a == b
  {
    var p := "Almac\U{00E9}n ";
    assert IntToString(a) == StoreLabel(a)[|p|..];
    assert IntToString(b) == StoreLabel(b)[|p|..];
    ParseIntToString(a, []);
    ParseIntToString(b, []);
    assert IntToString(a) + [] == IntToString(a);
    assert IntToString(b) + [] == IntToString(b);
  }

  /** Where(a => a.AlmacenId == id && a.Mes == m).Sum(a => a.Neto). */
  function StoreMonthSum(aggs: seq<StoreMonth>, id: int, m: int): real {
    if aggs == [] then 0.0
    else
      var a := aggs[|aggs| - 1];
      StoreMonthSum(aggs[..|aggs| - 1], id, m) + (if a.store == id && a.month == m then a.neto else 0.0)
  }

  /** The twelve monthly sums of one warehouse. */
  function StoreSeries(aggs: seq<StoreMonth>, id: int): (r: seq<real>)
    ensures |r| == 12 && forall i :: 0 <= i < 12 ==> r[i] == StoreMonthSum(aggs, id, i + 1)
  {
    seq(12, i requires 0 <= i < 12 => StoreMonthSum(aggs, id, i + 1))
  }

  /** The net of the warehouse's rows over January to December. */
  function StoreTotal(aggs: seq<StoreMonth>, id: int): real {
    if aggs == [] then 0.0
    else
      var a := aggs[|aggs| - 1];
      StoreTotal(aggs[..|aggs| - 1], id) + (if a.store == id && 1 <= a.month <= 12 then a.neto else 0.0)
  }

  /** The values of a row pattern: v at position k, 0 elsewhere. */
  lemma {:induction false} SumSingle(xs: seq<real>, k: int, v: real)
    requires forall i :: 0 <= i < |xs| ==> xs[i] == (if i == k then v else 0.0)
    ensures Sum(xs) == (if 0 <= k < |xs| then v else 0.0)
  {
    if xs != [] {
      SumSingle(xs[..|xs| - 1], k, v);
    }
  }

  lemma {:induction false} SumPointwise(xs: seq<real>, ys: seq<real>, zs: seq<real>)
    requires |xs| == |ys| == |zs|
    requires forall i :: 0 <= i < |zs| ==> zs[i] == xs[i] + ys[i]
    ensures Sum(zs) == Sum(xs) + Sum(ys)
  {
    if zs != [] {
      var n := |zs| - 1;
      SumPointwise(xs[..n], ys[..n], zs[..n]);
    }
  }

  /** A warehouse's twelve monthly values add up to its net over the year. */
  lemma {:induction false} StoreSeriesTotal(aggs: seq<StoreMonth>, id: int)
    ensures Sum(StoreSeries(aggs, id)) == StoreTotal(aggs, id)
  {
    if aggs != [] {
      var init := aggs[..|aggs| - 1];
      var a := aggs[|aggs| - 1];
      StoreSeriesTotal(init, id);
      assert aggs[..|aggs| - 1] == init;
      assert StoreTotal(aggs, id) == StoreTotal(init, id) + (if a.store == id && 1 <= a.month <= 12 then a.neto else 0.0);
      var hit := seq(12, i requires 0 <= i < 12 => if a.store == id && a.month == i + 1 then a.neto else 0.0);
      if a.store == id {
        SumSingle(hit, a.month - 1, a.neto);
      } else {
        SumSingle(hit, -1, 0.0);
      }
      assert Sum(hit) == (if a.store == id && 1 <= a.month <= 12 then a.neto else 0.0);
      forall i | 0 <= i < 12
        ensures StoreSeries(aggs, id)[i] == StoreSeries(init, id)[i] + hit[i]
      {
        assert StoreMonthSum(aggs, id, i + 1) == StoreMonthSum(init, id, i + 1) + hit[i];
      }
      SumPointwise(StoreSeries(init, id), hit, StoreSeries(aggs, id));
    } else {
      SumSingle(StoreSeries(aggs, id), -1, 0.0);
    }
  }

  /** The heatmap row of the warehouse at index y. */
  function MonthRow(aggs: seq<StoreMonth>, id: int, y: int): (r: seq<Cell>)
    ensures |r| == 12 && forall i :: 0 <= i < 12 ==> r[i] == Cell(i, y, StoreMonthSum(aggs, id, i + 1))
  {
    seq(12, i requires 0 <= i < 12 => Cell(i, y, StoreMonthSum(aggs, id, i + 1)))
  }

  /** The cells of the first n warehouses, row by row. */
  function Grid(aggs: seq<StoreMonth>, ids: seq<int>, n: nat): seq<Cell>
    requires n <= |ids|
  {
    if n == 0 then [] else Grid(aggs, ids, n - 1) + MonthRow(aggs, ids[n - 1], n - 1)
  }

  /** The grid has twelve cells per warehouse; cell 12·y + i is month i + 1 of warehouse y. */
  lemma {:induction false} GridShape(aggs: seq<StoreMonth>, ids: seq<int>, n: nat)
    requires n <= |ids|
    ensures |Grid(aggs, ids, n)| == 12 * n
    ensures forall k :: 0 <= k < 12 * n ==>
              Grid(aggs, ids, n)[k] == Cell(k % 12, k / 12, StoreMonthSum(aggs, ids[k / 12], k % 12 + 1))
  {
    if n > 0 {
      GridShape(aggs, ids, n - 1);
      var g := Grid(aggs, ids, n);
      forall k | 12 * (n - 1) <= k < 12 * n
        ensures g[k] == Cell(k % 12, k / 12, StoreMonthSum(aggs, ids[k / 12], k % 12 + 1))
      {
        assert k / 12 == n - 1 && k % 12 == k - 12 * (n - 1);
        assert g[k] == MonthRow(aggs, ids[n - 1], n - 1)[k - 12 * (n - 1)];
      }
    }
  }

  /** A largest value among the cells. */
  function MaxValue(cells: seq<Cell>): (m: real)
    requires cells != []
    ensures forall k :: 0 <= k < |cells| ==> cells[k].value <= m
    ensures exists k :: 0 <= k < |cells| && cells[k].value == m
  {
    if |cells| == 1 then cells[0].value
    else
      var m := MaxValue(cells[..|cells| - 1]);
      var v := cells[|cells| - 1].value;
      if v > m then v else m
  }

  /**
   * VentasHeatmap after its query: the warehouse axis, one cell per
   * warehouse and month filled in nested loops, and the largest value (0
   * without cells).
   */
  method BuildHeatmap(requested: seq<int>, aggs: seq<StoreMonth>) returns (h: Heatmap)
    ensures h.xCount == 12 && h.yIds == AxisIds(requested, aggs)
    ensures |h.yCategories| == |h.yIds| && forall k :: 0 <= k < |h.yIds| ==> h.yCategories[k] == StoreLabel(h.yIds[k])
    ensures |h.data| == 12 * |h.yIds|
    ensures forall k :: 0 <= k < |h.data| ==>
              h.data[k] == Cell(k % 12, k / 12, StoreMonthSum(aggs, h.yIds[k / 12], k % 12 + 1))
    ensures forall k :: 0 <= k < |h.data| ==> h.data[k].value <= h.max
    ensures h.data == [] ==> h.max == 0.0
    ensures h.data != [] ==> exists k :: 0 <= k < |h.data| && h.data[k].value == h.max
  {
    var yIds := AxisIds(requested, aggs);
    var yCats := seq(|yIds|, k requires 0 <= k < |yIds| => StoreLabel(yIds[k]));
    var data := GridCells(aggs, yIds);
    GridShape(aggs, yIds, |yIds|);
    var max := if |data| > 0 then MaxValue(data) else 0.0;
    h := Heatmap(12, yIds, yCats, data, max);
  }

  /** The two nested loops of the heatmap: warehouse by warehouse, month by month. */
  method GridCells(aggs: seq<StoreMonth>, yIds: seq<int>) returns (data: seq<Cell>)
    ensures data == Grid(aggs, yIds, |yIds|)
  {
    data := [];
    var yIndex := 0;
    while yIndex < |yIds|
      invariant 0 <= yIndex <= |yIds|
      invariant data == Grid(aggs, yIds, yIndex)
    {
      var id := yIds[yIndex];
      var i := 0;
      while i < 12
        invariant 0 <= i <= 12
        invariant data == Grid(aggs, yIds, yIndex) + MonthRow(aggs, id, yIndex)[..i]
      {
        var val := StoreMonthSum(aggs, id, i + 1);
        RowStep(aggs, id, yIndex, i);
        data := data + [Cell(i, yIndex, val)];
        i := i + 1;
      }
      GridStep(aggs, yIds, yIndex);
      yIndex := yIndex + 1;
    }
  }

  lemma RowStep(aggs: seq<StoreMonth>, id: int, y: int, i: nat)
    requires i < 12
    ensures MonthRow(aggs, id, y)[..i + 1] == MonthRow(aggs, id, y)[..i] + [Cell(i, y, StoreMonthSum(aggs, id, i + 1))]
  {
  }

  lemma GridStep(aggs: seq<StoreMonth>, ids: seq<int>, n: nat)
    requires n < |ids|
    ensures Grid(aggs, ids, n + 1) == Grid(aggs, ids, n) + MonthRow(aggs, ids[n], n)[..12]
  {
    assert MonthRow(aggs, ids[n], n)[..12] == MonthRow(aggs, ids[n], n);
  }

  /**
   * VentasPorMesMulti after its query: one legend-labelled series of twelve
   * monthly sums per warehouse of the axis, added in a loop.
   */
  method SeriesByStore(requested: seq<int>, aggs: seq<StoreMonth>) returns (series: seq<NamedSeries>)
    ensures var ids := AxisIds(requested, aggs);
            |series| == |ids| &&
            forall k :: 0 <= k < |ids| ==> series[k] == NamedSeries(StoreLabel(ids[k]), StoreSeries(aggs, ids[k]))
  {
    var ids := AxisIds(requested, aggs);
    series := StoreSeriesLoop(aggs, ids);
  }

  /** The loop of VentasPorMesMulti over the axis warehouses. */
  method StoreSeriesLoop(aggs: seq<StoreMonth>, ids: seq<int>) returns (series: seq<NamedSeries>)
    ensures |series| == |ids|
    ensures forall k :: 0 <= k < |ids| ==> series[k] == NamedSeries(StoreLabel(ids[k]), StoreSeries(aggs, ids[k]))
  {
    series := [];
    for j := 0 to |ids|
      invariant |series| == j
      invariant forall k :: 0 <= k < j ==> series[k] == NamedSeries(StoreLabel(ids[k]), StoreSeries(aggs, ids[k]))
    {
      var id := ids[j];
      var data := StoreSeries(aggs, id);
      var row := NamedSeries(StoreLabel(id), data);
      AppendKeeps(series, row);
      series := series + [row];
    }
  }

  lemma AppendKeeps<T>(s: seq<T>, x: T)
    ensures |s + [x]| == |s| + 1 && (s + [x])[|s|] == x
    ensures forall k :: 0 <= k < |s| ==> (s + [x])[k] == s[k]
  {
  }

  /** The heatmap cell of month i and warehouse y shows the value series y of the per-warehouse chart shows for month i. */
  lemma HeatmapMatchesSeries(aggs: seq<StoreMonth>, ids: seq<int>, y: nat, i: nat)
    requires y < |ids| && i < 12
    ensures |Grid(aggs, ids, |ids|)| == 12 * |ids|
    ensures Grid(aggs, ids, |ids|)[12 * y + i].value == StoreSeries(aggs, ids[y])[i]
  {
    GridShape(aggs, ids, |ids|);
    assert (12 * y + i) / 12 == y && (12 * y + i) % 12 == i;
  }

  // ---------------------------------------------------------------------
  // Sales summary

  /** What the summary and the top-products chart read of a sales fact. */
  datatype Fact = Fact(store: int, product: int, neto: real, descuento: real, cantidad: real)

  datatype Column = Net | Discount | Units

  function ValueOf(f: Fact, c: Column): real {
    match c
    case Net => f.neto
    case Discount => f.descuento
    case Units => f.cantidad
  }

  /** SumAsync(h => (decimal?)h.Column) ?? 0: the column's total, 0 for no rows. */
  function Total(rows: seq<Fact>, c: Column): real {
    if rows == [] then 0.0 else Total(rows[..|rows| - 1], c) + ValueOf(rows[|rows| - 1], c)
  }

  datatype SalesSummary = SalesSummary(
    neto: real, bruto: real, descuento: real, transactions: nat,
    ticket: real, netoPrev: real, varYoY: real, units: real)

  /**
   * ResumenVentas after its queries, over the facts of the year and of the
   * year before: gross is net plus discount, the average ticket is net per
   * fact row (0 without rows), and the year-on-year change is relative to
   * the previous net (0 when that is 0).
   */
  function Summary(cur: seq<Fact>, prev: seq<Fact>): (s: SalesSummary)
    ensures s.neto == Total(cur, Net) && s.descuento == Total(cur, Discount) && s.units == Total(cur, Units)
    ensures s.transactions == |cur| && s.netoPrev == Total(prev, Net)
    ensures s.bruto - s.descuento == s.neto
    ensures s.transactions == 0 ==> s.ticket == 0.0
    ensures s.transactions > 0 ==> s.ticket * s.transactions as real == s.neto
    ensures s.netoPrev == 0.0 ==> s.varYoY == 0.0
    ensures s.netoPrev != 0.0 ==> s.netoPrev * (1.0 + s.varYoY) == s.neto
  {
    var neto := Total(cur, Net);
    var desc := Total(cur, Discount);
    var trans := |cur|;
    var prevNeto := Total(prev, Net);
    var ticket := if trans > 0 then neto / trans as real else 0.0;
    var varYoY := if prevNeto == 0.0 then 0.0 else (neto - prevNeto) / prevNeto;
    SalesSummary(neto, neto + desc, desc, trans, ticket, prevNeto, varYoY, Total(cur, Units))
  }

  /** With a positive previous net, the change is positive exactly when the net grew. */
  lemma SummaryGrowth(cur: seq<Fact>, prev: seq<Fact>)
    requires Total(prev, Net) > 0.0
    ensures Summary(cur, prev).varYoY > 0.0 <==> Total(cur, Net) > Total(prev, Net)
    ensures Summary(cur, prev).varYoY == 0.0 <==> Total(cur, Net) == Total(prev, Net)
  {
    var s := Summary(cur, prev);
    DivideSign(s.neto - s.netoPrev, s.netoPrev);
  }

  // ---------------------------------------------------------------------
  // Seller comparison

  /**
   * The percentage change from a to b: 100 when a is 0 and b grew, 0 when a
   * is 0 otherwise, and (b - a) / a · 100 in general.
   */
  function Pct(a: real, b: real): (p: real)
    ensures a != 0.0 ==> p * a == (b - a) * 100.0
    ensures a == 0.0 ==> p == (if b > 0.0 then 100.0 else 0.0)
  {
    if a == 0.0 then (if b > 0.0 then 100.0 else 0.0) else (b - a) / a * 100.0
  }

  /** From a positive base the change is positive, zero or negative as b is above, at or below a. */
  lemma PctSign(a: real, b: real)
    requires a > 0.0
    ensures Pct(a, b) > 0.0 <==> b > a
    ensures Pct(a, b) == 0.0 <==> b == a
  {
    DivideSign(b - a, a);
  }

  /** One employee's totals in one period. */
  datatype PeriodTotals = PeriodTotals(neto: real, units: real, tickets: nat)

  datatype SellerComparison = SellerComparison(
    id: int, name: string,
    netoA: real, netoB: real, deltaNeto: real, pctNeto: real,
    unitsA: real, unitsB: real, deltaUnits: real, pctUnits: real,
    ticketsA: nat, ticketsB: nat)

  /** GetValueOrDefault with every total 0 for an employee without sales in the period. */
  function TotalsOf(m: map<int, PeriodTotals>, id: int): PeriodTotals {
    if id in m then m[id] else PeriodTotals(0.0, 0.0, 0)
  }

  /** The row of one employee: both periods, the differences and the percentages, rounded to cents. */
  function CompareRow(id: int, a: map<int, PeriodTotals>, b: map<int, PeriodTotals>): SellerComparison {
    var ta := TotalsOf(a, id);
    var tb := TotalsOf(b, id);
    SellerComparison(
      id, EmployeeLabel(id),
      Round2(ta.neto), Round2(tb.neto), Round2(tb.neto - ta.neto), Round2(Pct(ta.neto, tb.neto)),
      Round2(ta.units), Round2(tb.units), Round2(tb.units - ta.units), Round2(Pct(ta.units, tb.units)),
      ta.tickets, tb.tickets)
  }

  /** Each reported amount is within half a cent of the exact value. */
  lemma CompareRowRounded(id: int, a: map<int, PeriodTotals>, b: map<int, PeriodTotals>)
    ensures var r := CompareRow(id, a, b);
            var ta := TotalsOf(a, id);
            var tb := TotalsOf(b, id);
            -0.5 <= (r.netoA - ta.neto) * 100.0 <= 0.5 &&
            -0.5 <= (r.netoB - tb.neto) * 100.0 <= 0.5 &&
            -0.5 <= (r.unitsA - ta.units) * 100.0 <= 0.5 &&
            -0.5 <= (r.unitsB - tb.units) * 100.0 <= 0.5 &&
            -0.5 <= (r.deltaNeto - (tb.neto - ta.neto)) * 100.0 <= 0.5 &&
            -0.5 <= (r.pctNeto - Pct(ta.neto, tb.neto)) * 100.0 <= 0.5 &&
            -0.5 <= (r.deltaUnits - (tb.units - ta.units)) * 100.0 <= 0.5 &&
            -0.5 <= (r.pctUnits - Pct(ta.units, tb.units)) * 100.0 <= 0.5
  {
    var ta := TotalsOf(a, id);
    var tb := TotalsOf(b, id);
    RoundAtClose(ta.neto, 100.0);
    RoundAtClose(tb.neto, 100.0);
    RoundAtClose(ta.units, 100.0);
    RoundAtClose(tb.units, 100.0);
    RoundAtClose(tb.neto - ta.neto, 100.0);
    RoundAtClose(Pct(ta.neto, tb.neto), 100.0);
    RoundAtClose(tb.units - ta.units, 100.0);
    RoundAtClose(Pct(ta.units, tb.units), 100.0);
  }

  /** The ranking key of an employee: the period-A net, or units when the metric says so; 0 when absent. */
  function RankKey(byUnits: bool, a: map<int, PeriodTotals>, id: int): real {
    if id !in a then 0.0 else if byUnits then a[id].units else a[id].neto
  }

  predicate RankedDesc(ids: seq<int>, byUnits: bool, a: map<int, PeriodTotals>) {
    forall i, j :: 0 <= i < j < |ids| ==> RankKey(byUnits, a, ids[i]) >= RankKey(byUnits, a, ids[j])
  }

  /** Inserts x before the first id whose key is below x's. */
  function InsertRanked(x: int, ids: seq<int>, byUnits: bool, a: map<int, PeriodTotals>): (r: seq<int>)
    ensures multiset(r) == multiset(ids) + multiset{x}
  {
    if ids == [] || RankKey(byUnits, a, x) >= RankKey(byUnits, a, ids[0]) then [x] + ids
    else
      assert ids == [ids[0]] + ids[1..];
      [ids[0]] + InsertRanked(x, ids[1..], byUnits, a)
  }

  lemma {:induction false} InsertRankedSorted(x: int, ids: seq<int>, byUnits: bool, a: map<int, PeriodTotals>)
    requires RankedDesc(ids, byUnits, a)
    ensures RankedDesc(InsertRanked(x, ids, byUnits, a), byUnits, a)
  {
    if ids != [] && RankKey(byUnits, a, x) < RankKey(byUnits, a, ids[0]) {
      InsertRankedSorted(x, ids[1..], byUnits, a);
      var t := InsertRanked(x, ids[1..], byUnits, a);
      forall y | y in t
        ensures RankKey(byUnits, a, ids[0]) >= RankKey(byUnits, a, y)
      {
        assert y in multiset(t);
        if y != x {
          assert y in multiset(ids[1..]);
        }
      }
    }
  }

  /** The stable OrderByDescending on the ranking key. */
  function RankByKey(ids: seq<int>, byUnits: bool, a: map<int, PeriodTotals>): (r: seq<int>)
    ensures RankedDesc(r, byUnits, a)
    ensures multiset(r) == multiset(ids)
  {
    if ids == [] then []
    else
      assert ids == [ids[0]] + ids[1..];
      var t := RankByKey(ids[1..], byUnits, a);
      InsertRankedSorted(ids[0], t, byUnits, a);
      InsertRanked(ids[0], t, byUnits, a)
  }

  /** The ids ranked with the key k, in order. */
  function WithKey(ids: seq<int>, byUnits: bool, a: map<int, PeriodTotals>, k: real): seq<int> {
    if ids == [] then []
    else (if RankKey(byUnits, a, ids[0]) == k then [ids[0]] else []) + WithKey(ids[1..], byUnits, a, k)
  }

  lemma {:induction false} InsertRankedStable(x: int, ids: seq<int>, byUnits: bool, a: map<int, PeriodTotals>, k: real)
    requires RankedDesc(ids, byUnits, a)
    ensures WithKey(InsertRanked(x, ids, byUnits, a), byUnits, a, k) ==
            (if RankKey(byUnits, a, x) == k then [x] else []) + WithKey(ids, byUnits, a, k)
  {
    if ids == [] || RankKey(byUnits, a, x) >= RankKey(byUnits, a, ids[0]) {
      assert ([x] + ids)[1..] == ids;
    } else {
      var t := InsertRanked(x, ids[1..], byUnits, a);
      assert ([ids[0]] + t)[1..] == t;
      assert RankedDesc(ids[1..], byUnits, a) by {
        forall i, j | 0 <= i < j < |ids| - 1
          ensures RankKey(byUnits, a, ids[1..][i]) >= RankKey(byUnits, a, ids[1..][j])
        {
          assert ids[1..][i] == ids[i + 1] && ids[1..][j] == ids[j + 1];
        }
      }
      InsertRankedStable(x, ids[1..], byUnits, a, k);
    }
  }

  /** Employees with equal keys keep the order of the database ranking. */
  lemma {:induction false} RankByKeyStable(ids: seq<int>, byUnits: bool, a: map<int, PeriodTotals>, k: real)
    ensures WithKey(RankByKey(ids, byUnits, a), byUnits, a, k) == WithKey(ids, byUnits, a, k)
  {
    if ids != [] {
      RankByKeyStable(ids[1..], byUnits, a, k);
      InsertRankedStable(ids[0], RankByKey(ids[1..], byUnits, a), byUnits, a, k);
    }
  }

  /**
   * TopVendedoresCompare after its queries: the top ids re-ranked by the
   * period-A key of the metric ("unidades" in any case selects units), one
   * comparison row each.
   */
  function CompareSellers(topIds: seq<int>, metric: string, a: map<int, PeriodTotals>, b: map<int, PeriodTotals>)
    : (r: seq<SellerComparison>)
    ensures var byUnits := Lower(metric) == "unidades";
            |r| == |topIds| &&
            multiset(IdsOf(r)) == multiset(topIds) &&
            RankedDesc(IdsOf(r), byUnits, a) &&
            forall i :: 0 <= i < |r| ==> r[i] == CompareRow(r[i].id, a, b)
  {
    var byUnits := Lower(metric) == "unidades";
    var ids := RankByKey(topIds, byUnits, a);
    assert |ids| == |multiset(ids)| == |topIds|;
    var r := CompareRows(ids, a, b);
    assert IdsOf(r) == ids;
    r
  }

  /** One comparison row per id, in order. */
  function CompareRows(ids: seq<int>, a: map<int, PeriodTotals>, b: map<int, PeriodTotals>): (r: seq<SellerComparison>)
    ensures |r| == |ids| && forall i :: 0 <= i < |ids| ==> r[i] == CompareRow(ids[i], a, b) && r[i].id == ids[i]
  {
    seq(|ids|, i requires 0 <= i < |ids| => CompareRow(ids[i], a, b))
  }

  /** The employee ids of comparison rows, in order. */
  function IdsOf(r: seq<SellerComparison>): (ids: seq<int>)
    ensures |ids| == |r| && forall i :: 0 <= i < |r| ==> ids[i] == r[i].id
  {
    seq(|r|, i requires 0 <= i < |r| => r[i].id)
  }

  // ---------------------------------------------------------------------
  // Top products by warehouse

  datatype MultiChart =
    | MultiBadRequest(message: string)
    | MultiOk(categories: seq<string>, series: seq<NamedSeries>)

  const TwoStoresRequired: string := "Se requieren 2 o m\U{00E1}s almacenes."

  /** Intersect(...).Distinct(): the elements of xs that are in s, without repeats, in first-seen order. */
  function Intersect(xs: seq<int>, s: set<int>): (r: seq<int>)
    ensures forall y :: y in r <==> y in xs && y in s
    ensures forall i, j :: 0 <= i < j < |r| ==> r[i] != r[j]
  {
    if xs == [] then []
    else
      var init := Intersect(xs[..|xs| - 1], s);
      var x := xs[|xs| - 1];
      assert xs == xs[..|xs| - 1] + [x];
      if x in s && x !in init then init + [x] else init
  }

  /** The position of the first occurrence of y in xs. */
  function FirstAt(xs: seq<int>, y: int): (k: nat)
    requires y in xs
    ensures k < |xs| && xs[k] == y
    ensures forall p :: 0 <= p < k ==> xs[p] != y
  {
    if xs[0] == y then 0 else 1 + FirstAt(xs[1..], y)
  }

  lemma FirstAtPrefix(a: seq<int>, b: seq<int>, y: int)
    requires y in a
    ensures FirstAt(a + b, y) == FirstAt(a, y)
  {
    var k, k' := FirstAt(a + b, y), FirstAt(a, y);
    assert (a + b)[k'] == y;
  }

  /** Every element of r occurs in xs, and r lists them in the order of their first occurrence in xs. */
  predicate FirstSeenOrder(xs: seq<int>, r: seq<int>) {
    (forall y :: y in r ==> y in xs)
    && forall i, j :: 0 <= i < j < |r| ==> FirstAt(xs, r[i]) < FirstAt(xs, r[j])
  }

  /** The intersection lists the ids in the order of their first occurrence in xs. */
  lemma {:induction false} IntersectFirstSeen(xs: seq<int>, s: set<int>)
    ensures FirstSeenOrder(xs, Intersect(xs, s))
  {
    if xs != [] {
      var init := xs[..|xs| - 1];
      var x := xs[|xs| - 1];
      assert xs == init + [x];
      IntersectFirstSeen(init, s);
      var ri := Intersect(init, s);
      forall y | y in ri
        ensures FirstAt(xs, y) == FirstAt(init, y) < |init|
      {
        FirstAtPrefix(init, [x], y);
      }
      if x in s && x !in ri {
        assert x !in init;
        assert FirstAt(xs, x) == |init|;
        var r := ri + [x];
        assert Intersect(xs, s) == r;
        forall i, j | 0 <= i < j < |r|
          ensures FirstAt(xs, r[i]) < FirstAt(xs, r[j])
        {
          assert r[i] == ri[i] && r[i] in ri;
          assert FirstAt(xs, ri[i]) == FirstAt(init, ri[i]) < |init|;
          if j < |ri| {
            assert r[j] == ri[j] && r[j] in ri;
            assert FirstAt(xs, ri[j]) == FirstAt(init, ri[j]);
            assert FirstAt(init, ri[i]) < FirstAt(init, ri[j]);
          } else {
            assert r[j] == x;
          }
        }
        assert FirstSeenOrder(xs, r);
      } else {
        assert Intersect(xs, s) == ri;
        forall i, j | 0 <= i < j < |ri|
          ensures FirstAt(xs, ri[i]) < FirstAt(xs, ri[j])
        {
          assert ri[i] in ri && ri[j] in ri;
        }
      }
    }
  }

  function StoresWithData(rows: seq<Fact>): set<int> {
    set f | f in rows :: f.store
  }

  /** The net of the rows of one warehouse and one product; 0 when there are none. */
  function ProductStoreNeto(rows: seq<Fact>, store: int, product: int): real {
    if rows == [] then 0.0
    else
      var f := rows[|rows| - 1];
      ProductStoreNeto(rows[..|rows| - 1], store, product) + (if f.store == store && f.product == product then f.neto else 0.0)
  }

  lemma {:induction false} ProductStoreNetoNone(rows: seq<Fact>, store: int, product: int)
    requires forall f :: f in rows ==> f.store != store || f.product != product
    ensures ProductStoreNeto(rows, store, product) == 0.0
  {
    if rows != [] {
      ProductStoreNetoNone(rows[..|rows| - 1], store, product);
    }
  }

  /** The category of a product: its name, "(Sin producto)" for a blank one, "Producto {id}" when unknown. */
  function ProductCaption(names: map<int, string>, id: int): string {
    if id in names then (if IsBlank(names[id]) then "(Sin producto)" else names[id])
    else "Producto " + IntToString(id)
  }

  /** The legend of a warehouse: its non-blank name, otherwise "Almacén {id}". */
  function StoreName(names: map<int, string>, id: int): string {
    if id in names && !IsBlank(names[id]) then names[id] else StoreLabel(id)
  }

  /** The series of one warehouse: its legend and its net for each top product. */
  function ProductSeries(rows: seq<Fact>, top: seq<int>, storeNames: map<int, string>, store: int): (s: NamedSeries)
    ensures s.name == StoreName(storeNames, store) && |s.data| == |top|
    ensures forall k :: 0 <= k < |top| ==> s.data[k] == ProductStoreNeto(rows, store, top[k])
  {
    NamedSeries(StoreName(storeNames, store), seq(|top|, k requires 0 <= k < |top| => ProductStoreNeto(rows, store, top[k])))
  }

  /**
   * TopProductosMulti after its queries. `rows` are the facts of the
   * requested warehouses (and month), `top` the ids of the best-selling
   * products in rank order. Fewer than two requested warehouses is a bad
   * request; fewer than two of them with data, or no top product, gives an
   * empty chart; otherwise one series per valid warehouse, filled in a loop.
   */
  method TopProductsMulti(requested: Option<seq<int>>, rows: seq<Fact>, top: seq<int>,
                          productNames: map<int, string>, storeNames: map<int, string>)
    returns (r: MultiChart)
    ensures r.MultiBadRequest? <==> requested.None? || |requested.value| < 2
    ensures r.MultiBadRequest? ==> r.message == TwoStoresRequired
    ensures r.MultiOk? ==>
              var valid := Intersect(requested.value, StoresWithData(rows));
              if |valid| < 2 || top == [] then r == MultiOk([], [])
              else
                |r.categories| == |top| &&
                (forall k :: 0 <= k < |top| ==> r.categories[k] == ProductCaption(productNames, top[k])) &&
                |r.series| == |valid| &&
                forall j :: 0 <= j < |valid| ==> r.series[j] == ProductSeries(rows, top, storeNames, valid[j])
  {
    if requested.None? || |requested.value| < 2 {
      return MultiBadRequest(TwoStoresRequired);
    }
    var valid := Intersect(requested.value, StoresWithData(rows));
    if |valid| < 2 || top == [] {
      return MultiOk([], []);
    }
    var categories := seq(|top|, k requires 0 <= k < |top| => ProductCaption(productNames, top[k]));
    var series: seq<NamedSeries> := [];
    for j := 0 to |valid|
      invariant |series| == j
      invariant forall i :: 0 <= i < j ==> series[i] == ProductSeries(rows, top, storeNames, valid[i])
    {
      var row := ProductSeries(rows, top, storeNames, valid[j]);
      AppendKeeps(series, row);
      series := series + [row];
    }
    return MultiOk(categories, series);
  }

  /** The valid warehouses are requested ones that have data, each once. */
  lemma ValidStores(requested: seq<int>, rows: seq<Fact>, j: nat)
    requires j < |Intersect(requested, StoresWithData(rows))|
    ensures var id := Intersect(requested, StoresWithData(rows))[j];
            id in requested && exists f :: f in rows && f.store == id
  {
  }
}
