/**
 * The figures of the dashboard (src/charts.py), as the data each one plots: the
 * theme's template, the reach funnel, the weight per current stage, the weekly
 * received and shipped weight, the ten OS with most weight left to produce, the
 * lead times the histogram takes, and the conversion between stages. Drawing
 * the figures is not modelled.
 */
module Charts {
  import opened Wrappers
  import opened Seqs
  import opened Dates
  import opened Data
  import opened Insights

  /** `plot_template`: the dark template exactly for the dark theme, the white one otherwise. */
  function PlotTemplate(theme: string): (t: string)
    ensures t == "plotly_dark" <==> theme == "dark"
    ensures t == "plotly_white" <==> theme != "dark"
  {
    if theme == "dark" then "plotly_dark" else "plotly_white"
  }

  /** A bar of a chart: its label and its value. */
  datatype Bar = Bar(name: string, kg: real)

  function KgOf(b: Bar): real { b.kg }

  // ---------------------------------------------------------------------------
  // build_funnel_fig and build_conversion_fig: the weight that reached each stage
  // ---------------------------------------------------------------------------

  function PrepOf(r: Record): real { r.prepKg }
  function MontOf(r: Record): real { r.montKg }
  function SoldOf(r: Record): real { r.soldKg }
  function AcabOf(r: Record): real { r.acabKg }
  function PintOf(r: Record): real { r.pintKg }

  /** The column whose positive value means a drawing reached step `i` of the funnel (1 to 6). */
  function Gauge(i: nat): Record -> real
    requires 1 <= i <= 6
  {
    if i == 1 then PrepOf
    else if i == 2 then MontOf
    else if i == 3 then SoldOf
    else if i == 4 then AcabOf
    else if i == 5 then PintOf
    else ShippedOf
  }

  /** The rows whose column `w` is positive. */
  function Reaching(w: Record -> real): Record -> bool {
    r => w(r) > 0.0
  }

  /** Step `i` of the funnel: the whole scope, then `df.loc[df[col] > 0, "peso_total_kg"].sum()`. */
  function Reached(rows: seq<Record>, i: nat): real
    requires i <= 6
  {
    if i == 0 then SumBy(rows, TotalOf) else SumBy(Select(rows, Reaching(Gauge(i))), TotalOf)
  }

  const FunnelLabels: seq<string> := [
    "Total (escopo)", "Preparação atingida", "Montagem atingida", "Solda atingida",
    "Acabamento atingido", "Pintura atingida", "Expedido"]

  /** The funnel's seven bars, in order: the scope, then the weight that reached each step. */
  function Funnel(rows: seq<Record>): (f: seq<Bar>)
    ensures |f| == |FunnelLabels| == 7
    ensures forall i :: 0 <= i < |f| ==> f[i].name == FunnelLabels[i]
    ensures f[0].kg == SumBy(rows, TotalOf)
    ensures forall i :: 1 <= i < |f| ==> f[i].kg == SumBy(Select(rows, Reaching(Gauge(i))), TotalOf)
  {
    seq(|FunnelLabels|, i requires 0 <= i < |FunnelLabels| => Bar(FunnelLabels[i], Reached(rows, i)))
  }

  /** With non-negative total weights the weight that reached a step is between zero and the scope. */
  lemma ReachedWithinScope(rows: seq<Record>, i: nat)
    requires i <= 6
    requires forall r :: r in rows ==> r.pesoTotalKg >= 0.0
    ensures 0.0 <= Reached(rows, i) <= Reached(rows, 0)
  {
    SumByNonneg(rows, TotalOf);
    if i > 0 {
      SumBySelectLe(rows, Reaching(Gauge(i)), TotalOf);
    }
  }

  /** With non-negative total weights, no step of the funnel exceeds the scope, and none is negative. */
  lemma FunnelWithinScope(rows: seq<Record>)
    requires forall r :: r in rows ==> r.pesoTotalKg >= 0.0
    ensures forall i :: 0 <= i < 7 ==> 0.0 <= Funnel(rows)[i].kg <= Funnel(rows)[0].kg
  {
    var f := Funnel(rows);
    forall i | 0 <= i < 7
      ensures 0.0 <= f[i].kg <= f[0].kg
    {
      ReachedWithinScope(rows, i);
    }
  }

  /** A conversion bar: the step it measures and the share; the chart plots it times 100. */
  datatype Rate = Rate(step: string, ratio: real)

  const ConversionLabels: seq<string> := [
    "Total→Prep", "Prep→Mont", "Mont→Sold", "Sold→Acab", "Acab→Pint", "Pint→Exped"]

  /**
   * build_conversion_fig: six ratios, each step's reached weight over the step
   * before it (the first over the whole scope), 0 where the step before has no
   * positive weight.
   */
  function Conversion(rows: seq<Record>): (c: seq<Rate>)
    ensures |c| == |ConversionLabels| == 6
    ensures forall i :: 0 <= i < |c| ==> c[i].step == ConversionLabels[i]
    ensures forall i :: 0 <= i < |c| ==> IsShare(c[i].ratio, Reached(rows, i + 1), Reached(rows, i))
  {
    seq(|ConversionLabels|, i requires 0 <= i < |ConversionLabels| => ConversionAt(rows, i))
  }

  /** The bar of step `i` of the conversion chart. */
  function ConversionAt(rows: seq<Record>, i: nat): Rate
    requires i < |ConversionLabels|
  {
    Rate(ConversionLabels[i], Share(Reached(rows, i + 1), Reached(rows, i)))
  }

  /** The conversion bars divide consecutive bars of the funnel. */
  lemma ConversionOfFunnel(rows: seq<Record>, i: nat)
    requires i < 6
    ensures IsShare(Conversion(rows)[i].ratio, Funnel(rows)[i + 1].kg, Funnel(rows)[i].kg)
  {
    assert Funnel(rows)[i].kg == Reached(rows, i) && Funnel(rows)[i + 1].kg == Reached(rows, i + 1);
  }

  /** With non-negative total weights no conversion ratio is negative, and the first is at most one. */
  lemma ConversionNonneg(rows: seq<Record>)
    requires forall r :: r in rows ==> r.pesoTotalKg >= 0.0
    ensures forall i :: 0 <= i < 6 ==> Conversion(rows)[i].ratio >= 0.0
    ensures Conversion(rows)[0].ratio <= 1.0
  {
    var c := Conversion(rows);
    forall i | 0 <= i < 6
      ensures c[i].ratio >= 0.0
    {
      ReachedWithinScope(rows, i + 1);
      assert c[i].ratio == Share(Reached(rows, i + 1), Reached(rows, i));
    }
    ReachedWithinScope(rows, 1);
    assert c[0].ratio == Share(Reached(rows, 1), Reached(rows, 0));
  }

  // ---------------------------------------------------------------------------
  // build_wip_stage_fig: weight per current stage, ascending
  // ---------------------------------------------------------------------------

  function NameOf(b: Bar): string { b.name }

  /** The bar of stage `l`: its label and the total weight of the rows at that stage. */
  function StageBar(rows: seq<Record>): string -> Bar {
    l => Bar(l, StageLoad(rows, l))
  }

  /** One bar per stage label the rows hold, valued at that stage's total weight, in ascending order of weight. */
  function WipByStage(rows: seq<Record>): (bars: seq<Bar>)
    ensures AscendingBy(bars, KgOf)
    ensures NoDup(Map(bars, NameOf))
    ensures forall b :: b in bars ==> b.kg == StageLoad(rows, b.name)
    ensures forall b :: b in bars ==> exists r :: r in rows && r.etapaAtual == b.name
    ensures forall r :: r in rows ==> exists b :: b in bars && b.name == r.etapaAtual
  {
    var keys := GroupKeys(rows, EtapaOf);
    var bars := SortBy(Map(keys, StageBar(rows)), KgOf);
    RankedRecords(keys, StageBar(rows), NameOf, KgOf);
    GroupKeysMembers(rows, EtapaOf);
    forall b | b in bars
      ensures b.kg == StageLoad(rows, b.name) && exists r :: r in rows && r.etapaAtual == b.name
    {
      assert b == StageBar(rows)(b.name) && b.name in keys;
    }
    forall r | r in rows
      ensures exists b :: b in bars && b.name == r.etapaAtual
    {
      assert StageBar(rows)(EtapaOf(r)) in bars;
    }
    bars
  }

  // ---------------------------------------------------------------------------
  // build_timeseries_fig: weight per week of a date
  // ---------------------------------------------------------------------------

  /** A point of a weekly series: the Monday that starts the week, and the weight of the week. */
  datatype Point = Point(week: int, kg: real)

  predicate IntLt(a: int, b: int) { a < b }

  lemma IntLtOrder()
    ensures StrictTotalOrder(IntLt)
  {
  }

  function HasDate<T>(date: T -> Option<int>): T -> bool {
    r => date(r).Some?
  }

  /** `dt.to_period("W").dt.start_time` of the row's date (rows without a date are dropped before it matters). */
  function WeekOf<T>(date: T -> Option<int>): T -> int {
    r => WeekStart(date(r).GetOr(0))
  }

  /** The rows whose date falls in the week starting on `w`. */
  function InWeek<T>(date: T -> Option<int>, w: int): T -> bool {
    r => date(r).Some? && w <= date(r).value < w + 7
  }

  /** Two Mondays less than a week apart are the same day. */
  lemma MondayUnique(a: int, b: int)
    requires IsMonday(a) && IsMonday(b) && a <= b < a + 7
    ensures a == b
  {
    var k, m := (a + 3) / 7, (b + 3) / 7;
    assert a + 3 == 7 * k && b + 3 == 7 * m;
  }

  /** A date falls in the week starting on Monday `w` exactly when its week starts on `w`. */
  lemma WeekStartIff(d: int, w: int)
    requires IsMonday(w)
    ensures WeekStart(d) == w <==> w <= d < w + 7
  {
    var s := WeekStart(d);
    if w <= d < w + 7 {
      if s <= w {
        MondayUnique(s, w);
      } else {
        MondayUnique(w, s);
      }
    }
  }

  /** The bar of week `w`: the weight of the dated rows whose week starts on `w`. */
  function WeekPoint<T(!new)>(dated: seq<T>, date: T -> Option<int>, weight: T -> real): int -> Point {
    w => Point(w, GroupSum(dated, WeekOf(date), weight, w))
  }

  /** The group keys of the dated rows: their distinct week starts, ascending. */
  function WeekStarts<T(!new)>(rows: seq<T>, date: T -> Option<int>): (weeks: seq<int>)
    ensures forall i, j :: 0 <= i < j < |weeks| ==> weeks[i] < weeks[j]
    ensures forall w :: w in weeks ==> IsMonday(w) && exists r :: r in rows && date(r).Some? && WeekStart(date(r).value) == w
    ensures forall r :: r in rows && date(r).Some? ==> WeekStart(date(r).value) in weeks
  {
    IntLtOrder();
    var weeks := SortedDistinct(Map(Select(rows, HasDate(date)), WeekOf(date)), IntLt);
    WeeksOfDated(rows, date, weeks);
    assert forall i, j :: 0 <= i < j < |weeks| ==> IntLt(weeks[i], weeks[j]);
    weeks
  }

  /**
   * `dropna(subset=[week]).groupby(week)[weight].sum()`: one point per week that
   * holds a dated row, weeks in ascending order, each valued at the weight of
   * the rows dated in that week.
   */
  function Weekly<T(!new)>(rows: seq<T>, date: T -> Option<int>, weight: T -> real): (pts: seq<Point>)
    ensures forall i, j :: 0 <= i < j < |pts| ==> pts[i].week < pts[j].week
    ensures forall p :: p in pts ==> IsMonday(p.week) && p.kg == SumBy(Select(rows, InWeek(date, p.week)), weight)
    ensures forall p :: p in pts ==> exists r :: r in rows && date(r).Some? && WeekStart(date(r).value) == p.week
    ensures forall r :: r in rows && date(r).Some? ==> exists p :: p in pts && p.week == WeekStart(date(r).value)
  {
    var weeks := WeekStarts(rows, date);
    var pts := Map(weeks, WeekPoint(Select(rows, HasDate(date)), date, weight));
    WeekPointsValued(rows, date, weight, weeks, pts);
    WeekPointsCover(rows, date, weight, weeks, pts);
    pts
  }

  /** Each point built from a week of dated rows sits on a Monday and carries the weight of the rows dated in that week. */
  lemma WeekPointsValued<T(!new)>(rows: seq<T>, date: T -> Option<int>, weight: T -> real, weeks: seq<int>, pts: seq<Point>)
    requires pts == Map(weeks, WeekPoint(Select(rows, HasDate(date)), date, weight))
    requires forall w :: w in weeks ==> IsMonday(w) && exists r :: r in rows && date(r).Some? && WeekStart(date(r).value) == w
    ensures forall p :: p in pts ==> IsMonday(p.week) && p.kg == SumBy(Select(rows, InWeek(date, p.week)), weight)
    ensures forall p :: p in pts ==> exists r :: r in rows && date(r).Some? && WeekStart(date(r).value) == p.week
  {
    forall p | p in pts
      ensures && IsMonday(p.week) && p.kg == SumBy(Select(rows, InWeek(date, p.week)), weight)
              && exists r :: r in rows && date(r).Some? && WeekStart(date(r).value) == p.week
    {
      var k :| 0 <= k < |pts| && pts[k] == p;
      assert weeks[k] in weeks;
      WeekGroup(rows, date, weight, p.week);
    }
  }

  /** Every week holding a dated row has its point. */
  lemma WeekPointsCover<T(!new)>(rows: seq<T>, date: T -> Option<int>, weight: T -> real, weeks: seq<int>, pts: seq<Point>)
    requires pts == Map(weeks, WeekPoint(Select(rows, HasDate(date)), date, weight))
    requires forall r :: r in rows && date(r).Some? ==> WeekStart(date(r).value) in weeks
    ensures forall r :: r in rows && date(r).Some? ==> exists p :: p in pts && p.week == WeekStart(date(r).value)
  {
    forall r | r in rows && date(r).Some?
      ensures exists p :: p in pts && p.week == WeekStart(date(r).value)
    {
      var k :| 0 <= k < |weeks| && weeks[k] == WeekStart(date(r).value);
      assert pts[k] in pts;
    }
  }

  /** The weeks of the dated rows are the week starts of the rows' dates, each a Monday. */
  lemma WeeksOfDated<T(!new)>(rows: seq<T>, date: T -> Option<int>, weeks: seq<int>)
    requires forall w :: w in weeks <==> w in Map(Select(rows, HasDate(date)), WeekOf(date))
    ensures forall w :: w in weeks ==> IsMonday(w) && exists r :: r in rows && date(r).Some? && WeekStart(date(r).value) == w
    ensures forall r :: r in rows && date(r).Some? ==> WeekStart(date(r).value) in weeks
  {
    var dated := Select(rows, HasDate(date));
    var m := Map(dated, WeekOf(date));
    forall w | w in m
      ensures exists r :: r in rows && date(r).Some? && WeekStart(date(r).value) == w
    {
      var i :| 0 <= i < |m| && m[i] == w;
      assert dated[i] in dated;
    }
    forall r | r in rows && date(r).Some?
      ensures WeekStart(date(r).value) in m
    {
      assert r in dated;
      var i :| 0 <= i < |dated| && dated[i] == r;
      assert m[i] == WeekStart(date(r).value);
    }
  }

  /** The group of a week among the dated rows is the set of rows dated in that week. */
  lemma WeekGroup<T(!new)>(rows: seq<T>, date: T -> Option<int>, weight: T -> real, w: int)
    requires IsMonday(w)
    ensures GroupSum(Select(rows, HasDate(date)), WeekOf(date), weight, w) == SumBy(Select(rows, InWeek(date, w)), weight)
  {
    forall r
      ensures InWeek(date, w)(r) == (HasDate(date)(r) && KeyIs(WeekOf(date), w)(r))
    {
      if date(r).Some? {
        WeekStartIff(date(r).value, w);
      }
    }
    SelectSelectExt(rows, HasDate(date), KeyIs(WeekOf(date), w), InWeek(date, w));
  }

  /** The "Recebido (kg)" line: total weight per week of receipt. */
  function ReceivedWeekly(rows: seq<Record>): seq<Point> {
    Weekly(rows, DtRecebOf, TotalOf)
  }

  /** The "Expedido (kg)" line: shipped weight per week of shipping. */
  function ShippedWeekly(rows: seq<Record>): seq<Point> {
    Weekly(rows, DtExpedOf, ShippedOf)
  }

  // ---------------------------------------------------------------------------
  // build_top_os_fig: the ten OS with most weight left to produce
  // ---------------------------------------------------------------------------

  /** One OS: its weight left to produce and its total weight. */
  datatype OsBar = OsBar(os: string, toProduce: real, total: real)

  function OsOf(b: OsBar): string { b.os }

  function OsGroup(rows: seq<Record>, os: string): OsBar {
    OsBar(os, GroupSum(rows, OsClienteOf, ToProduceOf, os), GroupSum(rows, OsClienteOf, TotalOf, os))
  }

  function OsGroupOf(rows: seq<Record>): string -> OsBar {
    os => OsGroup(rows, os)
  }

  function BarToProduce(b: OsBar): real { b.toProduce }

  /** Sorting ascending by this key sorts descending by weight left to produce. */
  function ByToProduceDesc(b: OsBar): real { -b.toProduce }

  function NonBlank(s: string): bool { s != "" }

  const TopOsCount := 10

  /** The non-blank OS groups, sorted by descending weight left to produce. */
  function RankedOs(rows: seq<Record>): (ranked: seq<OsBar>)
    ensures forall i, j :: 0 <= i < j < |ranked| ==> ranked[i].toProduce >= ranked[j].toProduce
    ensures NoDup(Map(ranked, OsOf))
    ensures forall b :: b in ranked <==> b.os != "" && b == OsGroup(rows, b.os) && exists r :: r in rows && r.osCliente == b.os
  {
    var keys := GroupKeys(rows, OsClienteOf);
    var named := Select(keys, NonBlank);
    var ranked := SortBy(Map(named, OsGroupOf(rows)), ByToProduceDesc);
    GroupKeysMembers(rows, OsClienteOf);
    NoDupSelect(keys, NonBlank);
    RankedRecords(named, OsGroupOf(rows), OsOf, ByToProduceDesc);
    forall b: OsBar | b.os != "" && b == OsGroup(rows, b.os) && exists r :: r in rows && r.osCliente == b.os
      ensures b in ranked
    {
      var r :| r in rows && r.osCliente == b.os;
      assert OsClienteOf(r) in keys;
      assert b.os in named;
      assert OsGroupOf(rows)(b.os) in ranked;
    }
    forall i, j | 0 <= i < j < |ranked|
      ensures ranked[i].toProduce >= ranked[j].toProduce
    {
      assert ByToProduceDesc(ranked[i]) <= ByToProduceDesc(ranked[j]);
    }
    ranked
  }

  /**
   * `head(10)` of the ranking: at most ten OS, never the blank one, each with
   * its sums, in descending order of weight left to produce, and no OS left out
   * that has more left to produce than one shown.
   */
  function TopOs(rows: seq<Record>): (top: seq<OsBar>)
    ensures |top| <= TopOsCount
    ensures NoDup(Map(top, OsOf))
    ensures forall b :: b in top ==> b.os != "" && b == OsGroup(rows, b.os) && exists r :: r in rows && r.osCliente == b.os
    ensures forall i, j :: 0 <= i < j < |top| ==> top[i].toProduce >= top[j].toProduce
    ensures forall r :: r in rows && r.osCliente != "" && OsGroup(rows, r.osCliente) !in top ==>
      |top| == TopOsCount && forall b :: b in top ==> OsGroup(rows, r.osCliente).toProduce <= b.toProduce
  {
    var ranked := RankedOs(rows);
    var top := ranked[..Min(|ranked|, TopOsCount)];
    NoDupByPrefix(ranked, |top|, OsOf);
    forall r | r in rows && r.osCliente != "" && OsGroup(rows, r.osCliente) !in top
      ensures |top| == TopOsCount && forall b :: b in top ==> OsGroup(rows, r.osCliente).toProduce <= b.toProduce
    {
      PastPrefixOfDescending(ranked, |top|, BarToProduce, OsGroup(rows, r.osCliente));
    }
    top
  }

  // ---------------------------------------------------------------------------
  // build_leadtime_fig: the lead times the histogram takes
  // ---------------------------------------------------------------------------

  /** The longest lead time the histogram shows, in days (ten years). */
  const MaxLeadTimeShown := 3650

  predicate InLeadTimeWindow(r: Record) {
    r.leadtimeDias.Some? && 0 <= r.leadtimeDias.value <= MaxLeadTimeShown
  }

  /**
   * `notna() & (>= 0) & (<= 3650)`: one entry per row whose lead time is in the
   * window, so the histogram counts each value once per row carrying it.
   */
  function LeadTimeWindow(rows: seq<Record>): (lt: seq<int>)
    ensures forall v :: v in lt <==> 0 <= v <= MaxLeadTimeShown && exists r :: r in rows && r.leadtimeDias == Some(v)
    ensures forall v :: 0 <= v <= MaxLeadTimeShown ==> multiset(lt)[v] == |Select(rows, LeadTimeIs(v))|
  {
    var kept := Select(rows, InLeadTimeWindow);
    var lt := Map(kept, LeadTimeOf);
    WindowCounted(rows, lt);
    forall v | 0 <= v <= MaxLeadTimeShown && exists r :: r in rows && r.leadtimeDias == Some(v)
      ensures v in lt
    {
      var r :| r in rows && r.leadtimeDias == Some(v);
      assert r in kept;
      var i :| 0 <= i < |kept| && kept[i] == r;
      assert lt[i] == v;
    }
    forall v | v in lt
      ensures 0 <= v <= MaxLeadTimeShown && exists r :: r in rows && r.leadtimeDias == Some(v)
    {
      var i :| 0 <= i < |lt| && lt[i] == v;
      assert kept[i] in kept;
    }
    lt
  }

  /** The histogram sample counts each lead time in the window once per row carrying it. */
  lemma WindowCounted(rows: seq<Record>, lt: seq<int>)
    requires lt == Map(Select(rows, InLeadTimeWindow), LeadTimeOf)
    ensures forall v :: 0 <= v <= MaxLeadTimeShown ==> multiset(lt)[v] == |Select(rows, LeadTimeIs(v))|
  {
    forall v | 0 <= v <= MaxLeadTimeShown
      ensures multiset(lt)[v] == |Select(rows, LeadTimeIs(v))|
    {
      MapSelectCount(rows, InLeadTimeWindow, LeadTimeOf, v, LeadTimeIs(v));
    }
  }

  /** When no lead time exceeds ten years, the histogram takes exactly the lead times the KPI mean takes. */
  lemma LeadTimeWindowMatchesKpi(rows: seq<Record>)
    requires forall r :: r in rows && HasLeadTime(r) ==> r.leadtimeDias.value <= MaxLeadTimeShown
    ensures LeadTimeWindow(rows) == LeadTimes(rows)
  {
    SelectExt(rows, InLeadTimeWindow, HasLeadTime);
  }
}
