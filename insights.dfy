/**
 * The figures the dashboard reports (src/insights.py): the kilogram text every
 * card and bullet uses, the eight KPI cards, the five automatic insights and
 * the detail table.
 */
module Insights {
  import opened Wrappers
  import opened Text
  import opened Seqs
  import opened Dates
  import opened Data

  // ---------------------------------------------------------------------------
  // fmt_kg
  // ---------------------------------------------------------------------------

  /** Python's `round` on a number: the nearest integer, halves going to the even neighbour. */
  function RoundHalfEven(x: real): (n: int)
    ensures (n as real) - 0.5 <= x <= (n as real) + 0.5
    ensures x - (n as real) == 0.5 || (n as real) - x == 0.5 ==> n % 2 == 0
  {
    var f := x.Floor;
    var d := x - f as real;
    if d < 0.5 then f
    else if d > 0.5 then f + 1
    else if f % 2 == 0 then f
    else f + 1
  }

  /** The two properties above pin the result down: there is one such integer. */
  lemma RoundHalfEvenUnique(x: real, m: int)
    requires (m as real) - 0.5 <= x <= (m as real) + 0.5
    requires x - (m as real) == 0.5 || (m as real) - x == 0.5 ==> m % 2 == 0
    ensures m == RoundHalfEven(x)
  {
  }

  /** The characters of `t` other than '.', in order. */
  function RemoveDots(t: string): string
    decreases |t|
  {
    if t == [] then []
    else RemoveDots(t[..|t| - 1]) + (if t[|t| - 1] == '.' then [] else [t[|t| - 1]])
  }

  lemma {:induction false} RemoveDotsConcat(a: string, b: string)
    ensures RemoveDots(a + b) == RemoveDots(a) + RemoveDots(b)
    decreases |b|
  {
    if b != [] {
      var ab, c := a + b, b[|b| - 1];
      var tail := if c == '.' then [] else [c];
      assert ab[..|ab| - 1] == a + b[..|b| - 1] && ab[|ab| - 1] == c;
      assert RemoveDots(ab) == RemoveDots(a + b[..|b| - 1]) + tail;
      RemoveDotsConcat(a, b[..|b| - 1]);
      assert RemoveDots(b) == RemoveDots(b[..|b| - 1]) + tail;
    } else {
      assert a + b == a;
    }
  }

  lemma {:induction false} RemoveDotsDigits(s: string)
    requires AllDigits(s)
    ensures RemoveDots(s) == s
    decreases |s|
  {
    if s != [] {
      RemoveDotsDigits(s[..|s| - 1]);
    }
  }

  /** The `,` of Python's `{:,}` format, later replaced by '.': a separator before every group of three digits from the right. */
  function GroupThousands(s: string): (t: string)
    requires AllDigits(s)
    decreases |s|
  {
    if |s| <= 3 then s else GroupThousands(s[..|s| - 3]) + "." + s[|s| - 3..]
  }

  /** Removing the separators gives back the digits. */
  lemma {:induction false} GroupThousandsRoundTrip(s: string)
    requires AllDigits(s)
    ensures RemoveDots(GroupThousands(s)) == s
    decreases |s|
  {
    if |s| <= 3 {
      RemoveDotsDigits(s);
    } else {
      var p, d := s[..|s| - 3], s[|s| - 3..];
      var g := GroupThousands(p);
      assert GroupThousands(s) == g + "." + d;
      GroupThousandsRoundTrip(p);
      RemoveDotsGroup(g, d);
      assert p + d == s;
    }
  }

  /** Removing the dots from `g + "." + d`, with `d` all digits, leaves the dot-free `g` followed by `d`. */
  lemma RemoveDotsGroup(g: string, d: string)
    requires AllDigits(d)
    ensures RemoveDots(g + "." + d) == RemoveDots(g) + d
  {
    RemoveDotsDot(g);
    RemoveDotsDigits(d);
    RemoveDotsConcat(g + ".", d);
  }

  lemma RemoveDotsDot(g: string)
    ensures RemoveDots(g + ".") == RemoveDots(g)
  {
    var t := g + ".";
    assert t[..|t| - 1] == g;
  }

  /**
   * The shape of a grouped number: digits and separators only, a digit first,
   * exactly three digits after each separator (then another separator or the
   * end), and never four digits in a row.
   */
  predicate ThousandsGrouped(t: string) {
    t != [] && IsDigit(t[0]) && DigitsAndDots(t) && SeparatorsSpaced(t) && NoFourDigits(t)
  }

  predicate DigitsAndDots(t: string) {
    forall i :: 0 <= i < |t| ==> IsDigit(t[i]) || t[i] == '.'
  }

  /** A separator at `i` is followed by exactly three digits. */
  predicate SpacedAt(t: string, i: int) {
    0 <= i < |t| && t[i] == '.' ==>
      && i + 3 < |t| && IsDigit(t[i + 1]) && IsDigit(t[i + 2]) && IsDigit(t[i + 3])
      && (i + 4 == |t| || t[i + 4] == '.')
  }

  predicate SeparatorsSpaced(t: string) {
    forall i :: 0 <= i < |t| ==> SpacedAt(t, i)
  }

  /** No run of four digits starts at `i`. */
  predicate NoRunAt(t: string, i: int) {
    0 <= i && i + 3 < |t| ==> !(IsDigit(t[i]) && IsDigit(t[i + 1]) && IsDigit(t[i + 2]) && IsDigit(t[i + 3]))
  }

  predicate NoFourDigits(t: string) {
    forall i :: 0 <= i < |t| ==> NoRunAt(t, i)
  }

  lemma {:induction false} GroupThousandsShape(s: string)
    requires AllDigits(s) && s != []
    ensures ThousandsGrouped(GroupThousands(s))
    decreases |s|
  {
    if |s| > 3 {
      GroupThousandsShape(s[..|s| - 3]);
      AppendGroup(GroupThousands(s[..|s| - 3]), s[|s| - 3..]);
    }
  }

  /** Appending a separator and three digits to a grouped number keeps it grouped. */
  lemma AppendGroup(g: string, d: string)
    requires ThousandsGrouped(g) && |d| == 3 && AllDigits(d)
    ensures ThousandsGrouped(g + "." + d)
  {
    var t := g + "." + d;
    assert |t| == |g| + 4 && t[|g|] == '.' && t[0] == g[0];
    assert DigitsAndDots(t) by {
      forall i | 0 <= i < |t|
        ensures IsDigit(t[i]) || t[i] == '.'
      {
        if i < |g| {
          assert t[i] == g[i];
        } else if i > |g| {
          assert t[i] == d[i - |g| - 1];
        }
      }
    }
    assert SeparatorsSpaced(t) by {
      forall i
        ensures SpacedAt(t, i)
      {
        if 0 <= i < |g| && g[i] == '.' {
          assert SpacedAt(g, i);
          assert t[i + 1] == g[i + 1] && t[i + 2] == g[i + 2] && t[i + 3] == g[i + 3];
          if i + 4 < |g| {
            assert t[i + 4] == g[i + 4];
          }
        } else if 0 <= i < |g| {
          assert t[i] == g[i];
        } else if i == |g| {
          assert t[i + 1] == d[0] && t[i + 2] == d[1] && t[i + 3] == d[2];
        } else if |g| < i < |t| {
          assert t[i] == d[i - |g| - 1];
        }
      }
    }
    assert NoFourDigits(t) by {
      forall i
        ensures NoRunAt(t, i)
      {
        if 0 <= i && i + 3 < |g| {
          assert NoRunAt(g, i);
          assert t[i] == g[i] && t[i + 1] == g[i + 1] && t[i + 2] == g[i + 2] && t[i + 3] == g[i + 3];
        } else if 0 <= i && i + 3 < |t| {
          assert i <= |g| <= i + 3;
        }
      }
    }
  }

  /** `f"{n:,}".replace(",", ".")`: an integer with '.' between thousands and a leading minus when negative. */
  function IntGrouped(n: int): string {
    (if n < 0 then "-" else "") + GroupThousands(NatToDecimal(if n < 0 then -n else n))
  }

  /**
   * The grouped text starts with a minus sign exactly for a negative number, and
   * after it comes the thousands shape, which without its dots is `str(abs(n))`.
   */
  lemma IntGroupedShape(n: int)
    ensures var t := IntGrouped(n);
      && t != [] && (t[0] == '-' <==> n < 0)
      && ThousandsGrouped(if t[0] == '-' then t[1..] else t)
      && RemoveDots(if t[0] == '-' then t[1..] else t) == NatToDecimal(if n < 0 then -n else n)
  {
    var digits := NatToDecimal(if n < 0 then -n else n);
    var g := GroupThousands(digits);
    GroupThousandsShape(digits);
    GroupThousandsRoundTrip(digits);
    assert g[0] != '-';
    if n < 0 {
      assert IntGrouped(n) == "-" + g && ("-" + g)[1..] == g;
    } else {
      assert IntGrouped(n) == g;
    }
  }

  /** The grouped text reads back as the integer it was made from. */
  lemma IntGroupedRoundTrip(n: int)
    ensures RemoveDots(IntGrouped(n)) == IntToDecimal(n) && ParseInt(RemoveDots(IntGrouped(n))) == n
  {
    var digits := NatToDecimal(if n < 0 then -n else n);
    var g := GroupThousands(digits);
    GroupThousandsRoundTrip(digits);
    if n < 0 {
      RemoveDotsConcat("-", g);
      assert RemoveDots("-") == "-";
      assert RemoveDots(IntGrouped(n)) == IntToDecimal(n);
    } else {
      assert IntGrouped(n) == g;
    }
    IntDecimalRoundTrip(n);
  }

  /** `fmt_kg`: "-" when missing, else the rounded weight grouped by thousands, then " kg". */
  function FmtKg(x: Option<real>): string {
    match x
    case None => "-"
    case Some(v) => IntGrouped(RoundHalfEven(v)) + " kg"
  }

  /** The number part of a formatted weight: the text before " kg". */
  function KgNumber(s: string): string {
    if |s| >= 3 then s[..|s| - 3] else s
  }

  /**
   * Reading a formatted weight back: it ends in " kg", its number part is a
   * grouped digit string after an optional minus, and without the separators it
   * is canonical integer text (no leading zero) denoting the weight rounded half
   * to even, so it is exactly `str(round(v))`.
   */
  lemma FmtKgRoundTrip(v: real)
    ensures var s := FmtKg(Some(v));
      && |s| > 3 && s[|s| - 3..] == " kg"
      && var body := KgNumber(s);
      && ThousandsGrouped(if body[0] == '-' then body[1..] else body)
      && CanonicalIntText(RemoveDots(body)) && ParseInt(RemoveDots(body)) == RoundHalfEven(v)
  {
    var t := IntGrouped(RoundHalfEven(v));
    IntGroupedShape(RoundHalfEven(v));
    IntGroupedRoundTrip(RoundHalfEven(v));
    assert KgNumber(t + " kg") == t;
    assert RemoveDots(t) == IntToDecimal(RoundHalfEven(v));
  }

  /** A missing weight is the only one shown as "-". */
  lemma FmtKgMissing(x: Option<real>)
    ensures FmtKg(x) == "-" <==> x.None?
  {
    if x.Some? {
      FmtKgRoundTrip(x.value);
    }
  }

  // ---------------------------------------------------------------------------
  // compute_kpis
  // ---------------------------------------------------------------------------

  /** `q` is the share `n` is of `d`, taken as 0 when `d` is not positive. */
  predicate IsShare(q: real, n: real, d: real) {
    && (d > 0.0 ==> q * d == n)
    && (d <= 0.0 ==> q == 0.0)
  }

  /** `(n / d) if d > 0 else 0.0`. */
  function Share(n: real, d: real): (q: real)
    ensures IsShare(q, n, d)
    ensures d > 0.0 && n >= 0.0 ==> q >= 0.0
    ensures d > 0.0 && n <= d ==> q <= 1.0
  {
    if d > 0.0 then n / d else 0.0
  }

  /** A row whose lead time is present and not negative, the only ones the mean takes. */
  predicate HasLeadTime(r: Record) {
    r.leadtimeDias.Some? && r.leadtimeDias.value >= 0
  }

  function LeadTimeOf(r: Record): int {
    r.leadtimeDias.GetOr(0)
  }

  /** The rows whose lead time is `v` days. */
  function LeadTimeIs(v: int): Record -> bool {
    (r: Record) => r.leadtimeDias == Some(v)
  }

  /**
   * `df.loc[df["leadtime_dias"].notna() & (df["leadtime_dias"] >= 0), "leadtime_dias"]`:
   * one entry per row with a usable lead time, so each value occurs once per row carrying it.
   */
  function LeadTimes(rows: seq<Record>): (lt: seq<int>)
    ensures forall v :: v in lt <==> v >= 0 && exists r :: r in rows && r.leadtimeDias == Some(v)
    ensures forall v :: v >= 0 ==> multiset(lt)[v] == |Select(rows, LeadTimeIs(v))|
  {
    var kept := Select(rows, HasLeadTime);
    var lt := Map(kept, LeadTimeOf);
    LeadTimesCounted(rows, lt);
    forall v | v >= 0 && exists r :: r in rows && r.leadtimeDias == Some(v)
      ensures v in lt
    {
      var r :| r in rows && r.leadtimeDias == Some(v);
      assert r in kept;
      var i :| 0 <= i < |kept| && kept[i] == r;
      assert lt[i] == v;
    }
    forall v | v in lt
      ensures v >= 0 && exists r :: r in rows && r.leadtimeDias == Some(v)
    {
      var i :| 0 <= i < |lt| && lt[i] == v;
      assert kept[i] in kept;
    }
    lt
  }

  /** The KPI sample counts each usable lead time once per row carrying it. */
  lemma LeadTimesCounted(rows: seq<Record>, lt: seq<int>)
    requires lt == Map(Select(rows, HasLeadTime), LeadTimeOf)
    ensures forall v :: v >= 0 ==> multiset(lt)[v] == |Select(rows, LeadTimeIs(v))|
  {
    forall v | v >= 0
      ensures multiset(lt)[v] == |Select(rows, LeadTimeIs(v))|
    {
      MapSelectCount(rows, HasLeadTime, LeadTimeOf, v, LeadTimeIs(v));
    }
  }

  function SumInt(xs: seq<int>): int
    decreases |xs|
  {
    if xs == [] then 0 else xs[0] + SumInt(xs[1..])
  }

  lemma {:induction false} SumIntBounds(xs: seq<int>, lo: int, hi: int)
    requires forall x :: x in xs ==> lo <= x <= hi
    ensures |xs| * lo <= SumInt(xs) <= |xs| * hi
    decreases |xs|
  {
    if xs != [] {
      var rest := xs[1..];
      assert forall x :: x in rest ==> x in xs;
      SumIntBounds(rest, lo, hi);
      assert lo <= xs[0] <= hi by { assert xs[0] in xs; }
      OneMore(|rest|, lo);
      OneMore(|rest|, hi);
    }
  }

  lemma OneMore(n: int, c: int)
    ensures (n + 1) * c == n * c + c
  {
  }

  lemma QuotientBounds(s: real, n: real, lo: real, hi: real)
    requires n > 0.0 && n * lo <= s <= n * hi
    ensures lo <= s / n <= hi
  {
    var q := s / n;
    assert q * n == s;
    assert (q - lo) * n >= 0.0;
    assert (hi - q) * n >= 0.0;
  }

  /** `Series.mean()` of a non-empty column. */
  function Mean(xs: seq<int>): real
    requires xs != []
  {
    SumInt(xs) as real / |xs| as real
  }

  /** A mean lies between the smallest and the largest value. */
  lemma MeanBounds(xs: seq<int>, lo: int, hi: int)
    requires xs != [] && forall x :: x in xs ==> lo <= x <= hi
    ensures lo as real <= Mean(xs) <= hi as real
  {
    SumIntBounds(xs, lo, hi);
    var n := |xs|;
    ProductAsReal(n, lo);
    ProductAsReal(n, hi);
    QuotientBounds(SumInt(xs) as real, n as real, lo as real, hi as real);
  }

  lemma ProductAsReal(a: int, b: int)
    ensures (a * b) as real == a as real * b as real
  {
  }

  lemma {:induction false} SumIntNonneg(xs: seq<int>)
    requires forall x :: x in xs ==> x >= 0
    ensures SumInt(xs) >= 0
    decreases |xs|
  {
    if xs != [] {
      assert forall x :: x in xs[1..] ==> x in xs;
      SumIntNonneg(xs[1..]);
      assert xs[0] in xs;
    }
  }

  /** `float(lt.mean()) if len(lt) else None`: missing exactly when no row has a usable lead time. */
  function MeanLeadTime(rows: seq<Record>): (m: Option<real>)
    ensures m.None? <==> forall r :: r in rows ==> !HasLeadTime(r)
    ensures m.Some? ==> m.value >= 0.0 && m.value == Mean(LeadTimes(rows))
  {
    var lt := LeadTimes(rows);
    LeadTimesEmpty(rows);
    if lt == [] then
      None
    else
      MeanNonneg(lt);
      Some(Mean(lt))
  }

  lemma LeadTimesEmpty(rows: seq<Record>)
    ensures LeadTimes(rows) == [] <==> forall r :: r in rows ==> !HasLeadTime(r)
  {
    forall r | r in rows && HasLeadTime(r)
      ensures LeadTimes(rows) != []
    {
      assert r.leadtimeDias.value in LeadTimes(rows);
    }
    if LeadTimes(rows) != [] {
      assert LeadTimes(rows)[0] in LeadTimes(rows);
    }
  }

  lemma MeanNonneg(xs: seq<int>)
    requires xs != [] && forall x :: x in xs ==> x >= 0
    ensures Mean(xs) >= 0.0
  {
    SumIntNonneg(xs);
    var q := Mean(xs);
    assert q * |xs| as real == SumInt(xs) as real;
  }

  /** The mean lead time on the card is never above the longest lead time it takes. */
  lemma MeanLeadTimeBounds(rows: seq<Record>, hi: int)
    requires forall r :: r in rows && HasLeadTime(r) ==> r.leadtimeDias.value <= hi
    ensures MeanLeadTime(rows).Some? ==> MeanLeadTime(rows).value <= hi as real
  {
    var lt := LeadTimes(rows);
    if lt != [] {
      forall x | x in lt
        ensures 0 <= x <= hi
      {
        var r :| r in rows && r.leadtimeDias == Some(x);
      }
      MeanBounds(lt, 0, hi);
    }
  }

  /** The numbers behind the eight KPI cards of a non-empty table. */
  datatype KpiFigures = KpiFigures(
    total: real, produzido: real, exped: real, saldoProd: real, saldoExped: real,
    pctAvanco: real, pctExped: real, ltMean: Option<real>)

  function Figures(rows: seq<Record>): (k: KpiFigures)
    ensures k.total == SumBy(rows, TotalOf) && k.produzido == SumBy(rows, ProducedOf) && k.exped == SumBy(rows, ShippedOf)
    ensures k.saldoProd >= 0.0 && k.saldoProd >= k.total - k.produzido
    ensures k.saldoProd == 0.0 || k.saldoProd == k.total - k.produzido
    ensures k.saldoExped >= 0.0 && k.saldoExped >= k.produzido - k.exped
    ensures k.saldoExped == 0.0 || k.saldoExped == k.produzido - k.exped
    ensures IsShare(k.pctAvanco, k.produzido, k.total) && IsShare(k.pctExped, k.exped, k.total)
    ensures k.ltMean == MeanLeadTime(rows)
  {
    var total, produzido, exped := SumBy(rows, TotalOf), SumBy(rows, ProducedOf), SumBy(rows, ShippedOf);
    var saldoProd, saldoExped := Clamp0(total - produzido), Clamp0(produzido - exped);
    var pctAvanco, pctExped := Share(produzido, total), Share(exped, total);
    KpiFigures(total, produzido, exped, saldoProd, saldoExped, pctAvanco, pctExped, MeanLeadTime(rows))
  }

  /**
   * What a card shows: "-", a weight (written by `fmt_kg`), a share (written
   * as a percentage) or a mean number of days.
   */
  datatype KpiValue = Dash | Kg(weight: real) | Percent(ratio: real) | Days(mean: real)

  datatype KpiCard = KpiCard(title: string, value: KpiValue)

  const KpiTitles: seq<string> := [
    "Peso Total", "Peso Produzido", "Peso Expedido", "Saldo a Produzir",
    "Saldo a Expedir (WIP)", "% Avanço Físico", "% Expedição", "Lead Time Médio"]

  /** The value of card `i`: "-" on every card without data. */
  function CardValue(df: Option<seq<Record>>, i: nat): KpiValue {
    if df.None? || df.value == [] then Dash
    else
      var k := Figures(df.value);
      if i == 0 then Kg(k.total)
      else if i == 1 then Kg(k.produzido)
      else if i == 2 then Kg(k.exped)
      else if i == 3 then Kg(k.saldoProd)
      else if i == 4 then Kg(k.saldoExped)
      else if i == 5 then Percent(k.pctAvanco)
      else if i == 6 then Percent(k.pctExped)
      else if k.ltMean.None? then Dash
      else Days(k.ltMean.value)
  }

  /** compute_kpis: eight cards under fixed titles, in order, all "-" without data. */
  function ComputeKpis(df: Option<seq<Record>>): (cards: seq<KpiCard>)
    ensures |cards| == |KpiTitles|
    ensures forall i :: 0 <= i < |cards| ==> cards[i].title == KpiTitles[i]
    ensures df.None? || df.value == [] ==> forall i :: 0 <= i < |cards| ==> cards[i].value == Dash
    ensures df.Some? && df.value != [] ==>
      var k := Figures(df.value);
      && cards[0].value == Kg(k.total)
      && cards[1].value == Kg(k.produzido)
      && cards[2].value == Kg(k.exped)
      && cards[3].value == Kg(k.saldoProd)
      && cards[4].value == Kg(k.saldoExped)
      && cards[5].value == Percent(k.pctAvanco)
      && cards[6].value == Percent(k.pctExped)
      && cards[7].value == (if k.ltMean.None? then Dash else Days(k.ltMean.value))
  {
    var cards := seq(|KpiTitles|, i requires 0 <= i < |KpiTitles| => KpiCard(KpiTitles[i], CardValue(df, i)));
    assert |cards| == 8;
    assert forall i :: 0 <= i < 8 ==> cards[i].value == CardValue(df, i);
    cards
  }

  /** A weight on the first card and "-" on it are exclusive: "-" there means there is no data. */
  lemma KpisDashOnlyWithoutData(df: Option<seq<Record>>)
    ensures ComputeKpis(df)[0].value == Dash <==> df.None? || df.value == []
  {
  }

  // ---------------------------------------------------------------------------
  // build_insights
  // ---------------------------------------------------------------------------

  /** The stage labels the bottleneck is looked for among: every stage but shipped. */
  const WipLabels: seq<string> := [
    "Preparação", "Montagem", "Solda", "Acabamento", "Pintura (pronto p/ expedir)", "Não iniciado"]

  lemma WipLabelsAreUnshippedStages(l: string)
    ensures l in WipLabels <==> exists s: Stage :: s != Expedido && s.Label() == l
  {
    if l in WipLabels {
      if l == "Preparação" { assert Preparacao.Label() == l; }
      else if l == "Montagem" { assert Montagem.Label() == l; }
      else if l == "Solda" { assert Solda.Label() == l; }
      else if l == "Acabamento" { assert Acabamento.Label() == l; }
      else if l == "Pintura (pronto p/ expedir)" { assert Pintura.Label() == l; }
      else { assert NaoIniciado.Label() == l; }
    }
  }

  predicate InWip(r: Record) {
    r.etapaAtual in WipLabels
  }

  /** The weight a group of rows holds, by `peso_total_kg`, for one stage label. */
  function StageLoad(rows: seq<Record>, l: string): real {
    GroupSum(rows, EtapaOf, TotalOf, l)
  }

  /** A group named by its key, with the figure it was ranked by. */
  datatype Leader = Leader(name: string, kg: real)

  const NoLeader := Leader("-", 0.0)

  /**
   * The stage, among the rows still in production, holding the most total
   * weight; "-" and 0 when no row is in production. Ties go to the label
   * that appears first.
   */
  function Bottleneck(rows: seq<Record>): (b: Leader)
    ensures (forall r :: r in rows ==> !InWip(r)) ==> b == NoLeader
    ensures (exists r :: r in rows && InWip(r)) ==>
      && b.name in WipLabels
      && (exists r :: r in rows && r.etapaAtual == b.name)
      && b.kg == StageLoad(rows, b.name)
      && forall r :: r in rows && InWip(r) ==> StageLoad(rows, r.etapaAtual) <= b.kg
  {
    var w := Select(rows, InWip);
    var keys := GroupKeys(w, EtapaOf);
    var score := (l: string) => GroupSum(w, EtapaOf, TotalOf, l);
    WipKeys(rows);
    match ArgMax(keys, score)
    case None => NoLeader
    case Some(l) =>
      StageLoadInWip(rows, l);
      forall r | r in rows && InWip(r)
        ensures StageLoad(rows, r.etapaAtual) <= score(l)
      {
        StageLoadInWip(rows, r.etapaAtual);
      }
      Leader(l, score(l))
  }

  /** The stages grouped for the bottleneck are the labels of the rows in production. */
  lemma WipKeys(rows: seq<Record>)
    ensures var keys := GroupKeys(Select(rows, InWip), EtapaOf);
      && (forall r :: r in rows && InWip(r) ==> r.etapaAtual in keys)
      && (forall l :: l in keys ==> l in WipLabels && exists r :: r in rows && r.etapaAtual == l)
  {
    var w := Select(rows, InWip);
    var keys := GroupKeys(w, EtapaOf);
    forall r | r in rows && InWip(r)
      ensures r.etapaAtual in keys
    {
      assert r in w;
      var i :| 0 <= i < |w| && w[i] == r;
      assert EtapaOf(w[i]) in keys;
    }
    forall l | l in keys
      ensures l in WipLabels && exists r :: r in rows && r.etapaAtual == l
    {
      var i :| 0 <= i < |w| && EtapaOf(w[i]) == l;
      assert w[i] in w;
    }
  }

  /** Restricting to the rows in production leaves the load of every production stage unchanged. */
  lemma StageLoadInWip(rows: seq<Record>, l: string)
    requires l in WipLabels
    ensures GroupSum(Select(rows, InWip), EtapaOf, TotalOf, l) == StageLoad(rows, l)
  {
    GroupSumSelect(rows, InWip, EtapaOf, TotalOf, l);
  }

  /**
   * The OS holding the most weight still to ship, over every row (blank OS
   * included); "-" and 0 only for an empty table.
   */
  function OsWithMostWip(rows: seq<Record>): (o: Leader)
    ensures rows == [] ==> o == NoLeader
    ensures rows != [] ==>
      && (exists r :: r in rows && r.osCliente == o.name)
      && o.kg == GroupSum(rows, OsClienteOf, ToShipOf, o.name)
      && forall r :: r in rows ==> GroupSum(rows, OsClienteOf, ToShipOf, r.osCliente) <= o.kg
  {
    var keys := GroupKeys(rows, OsClienteOf);
    var score := (k: string) => GroupSum(rows, OsClienteOf, ToShipOf, k);
    assert rows != [] ==> OsClienteOf(rows[0]) in keys;
    match ArgMax(keys, score)
    case None => NoLeader
    case Some(k) =>
      var i :| 0 <= i < |rows| && OsClienteOf(rows[i]) == k;
      assert rows[i] in rows;
      forall r | r in rows
        ensures score(r.osCliente) <= score(k)
      {
        var j :| 0 <= j < |rows| && rows[j] == r;
        assert OsClienteOf(rows[j]) in keys;
      }
      Leader(k, score(k))
  }

  function IsLateOf(r: Record): bool { r.atrasado }

  /** `df.loc[df["atrasado"], "peso_total_kg"].sum()`. */
  function LateWeight(rows: seq<Record>): real {
    SumBy(Select(rows, IsLateOf), TotalOf)
  }

  /** With non-negative total weights, the weight late is part of the total weight. */
  lemma LateWeightBounded(rows: seq<Record>)
    requires forall r :: r in rows ==> r.pesoTotalKg >= 0.0
    ensures 0.0 <= LateWeight(rows) <= Figures(rows).total
  {
    SumBySelectLe(rows, IsLateOf, TotalOf);
  }

  /** One list entry: the bold heading and the text after it. */
  datatype Bullet = Bullet(heading: string, text: string)

  /** What the insights panel shows: a message without data, five bullets with. */
  datatype InsightsView = Message(text: string) | Bullets(items: seq<Bullet>)

  const NoDataMessage := "Sem dados suficientes."

  const InsightHeadings: seq<string> := [
    "Gargalo atual: ", "WIP total: ", "Backlog de produção: ",
    "Peso em atraso (pela data de entrega): ", "OS com maior WIP: "]

  /** `f"{name} ({fmt_kg(kg)})"`. */
  function LeaderText(g: Leader): string {
    g.name + " (" + FmtKg(Some(g.kg)) + ")"
  }

  /**
   * build_insights: the message without data; otherwise the bottleneck, the WIP,
   * the production backlog, the weight late and the OS with most WIP, in that
   * order, the WIP and backlog being the clamped balances of the KPI figures.
   */
  function BuildInsights(df: Option<seq<Record>>): (v: InsightsView)
    ensures v.Message? <==> df.None? || df.value == []
    ensures v.Message? ==> v.text == NoDataMessage
    ensures v.Bullets? ==>
      var rows := df.value;
      var k := Figures(rows);
      && |v.items| == 5
      && v.items[0] == Bullet(InsightHeadings[0], LeaderText(Bottleneck(rows)))
      && v.items[1] == Bullet(InsightHeadings[1], FmtKg(Some(k.saldoExped)))
      && v.items[2] == Bullet(InsightHeadings[2], FmtKg(Some(k.saldoProd)))
      && v.items[3] == Bullet(InsightHeadings[3], FmtKg(Some(LateWeight(rows))))
      && v.items[4] == Bullet(InsightHeadings[4], LeaderText(OsWithMostWip(rows)))
  {
    if df.None? || df.value == [] then Message(NoDataMessage)
    else
      var rows := df.value;
      var k := Figures(rows);
      Bullets([
        Bullet(InsightHeadings[0], LeaderText(Bottleneck(rows))),
        Bullet(InsightHeadings[1], FmtKg(Some(k.saldoExped))),
        Bullet(InsightHeadings[2], FmtKg(Some(k.saldoProd))),
        Bullet(InsightHeadings[3], FmtKg(Some(LateWeight(rows)))),
        Bullet(InsightHeadings[4], LeaderText(OsWithMostWip(rows)))])
  }

  /** The insights panel writes the same WIP and production backlog as the KPI cards show. */
  lemma InsightsAgreeWithKpis(df: Option<seq<Record>>)
    requires df.Some? && df.value != []
    ensures BuildInsights(df).Bullets? && ComputeKpis(df)[3].value.Kg? && ComputeKpis(df)[4].value.Kg?
    ensures BuildInsights(df).items[1].text == FmtKg(Some(ComputeKpis(df)[4].value.weight))
    ensures BuildInsights(df).items[2].text == FmtKg(Some(ComputeKpis(df)[3].value.weight))
  {
  }

  /** With non-negative total weights, the bottleneck's weight lies between zero and the total weight. */
  lemma BottleneckWithinWip(rows: seq<Record>)
    requires forall r :: r in rows ==> r.pesoTotalKg >= 0.0
    ensures 0.0 <= Bottleneck(rows).kg <= Figures(rows).total
  {
    var b := Bottleneck(rows);
    SumByNonneg(rows, TotalOf);
    SumBySelectLe(rows, KeyIs(EtapaOf, b.name), TotalOf);
    assert StageLoad(rows, b.name) == SumBy(Select(rows, KeyIs(EtapaOf, b.name)), TotalOf);
  }

  // ---------------------------------------------------------------------------
  // build_table_payload
  // ---------------------------------------------------------------------------

  /** The columns of the detail table, in display order. */
  const TableCols: seq<Col> := [
    ClienteCol, TextCol(OsCliente), TextCol(Tag), TextCol(SituacaoDesenho), TextCol(DesenhoPai),
    WeightCol(PesoTotalKg), DerivedCol(ProduzidoKg), WeightCol(PesoExpedKg),
    DerivedCol(SaldoAProduzirKg), DerivedCol(SaldoAExpedirKg),
    DerivedCol(EtapaAtual),
    DateCol(DtReceb), DateCol(DtEntrega), DateCol(DtExped),
    DerivedCol(LeadtimeDias), DerivedCol(Atrasado)]

  /** The weight columns the table writes as whole numbers, in the order it rewrites them. */
  const TableWeightCols: seq<Col> := [
    WeightCol(PesoTotalKg), DerivedCol(ProduzidoKg), WeightCol(PesoExpedKg),
    DerivedCol(SaldoAProduzirKg), DerivedCol(SaldoAExpedirKg)]

  /** `head(300)`. */
  const MaxTableRows := 300

  predicate IsTableWeight(c: Col) {
    || c == WeightCol(PesoTotalKg) || c == WeightCol(PesoExpedKg)
    || c == DerivedCol(ProduzidoKg) || c == DerivedCol(SaldoAProduzirKg) || c == DerivedCol(SaldoAExpedirKg)
  }

  lemma TableWeightColsMembers(c: Col)
    ensures c in TableWeightCols <==> IsTableWeight(c)
  {
  }

  /** The columns the table shows, by kind: the formatted ones are among them. */
  lemma TableColsMembers(c: Col)
    ensures IsTableWeight(c) ==> c in TableCols
    ensures c.DateCol? ==> c in TableCols
  {
    if c.DateCol? {
      match c.date
      case DtReceb =>
      case DtEntrega =>
      case DtExped =>
    }
  }

  /** The cells `float(v)` accepts in a weight column, or a missing one. */
  predicate NumericOrMissing(c: Cell) {
    c.NA? || c.Num? || c.Int?
  }

  /** Preparation leaves every weight the table rewrites a number, so `float(v)` accepts it. */
  lemma PreparedTableWeights(r: Row, p: Parsers, today: int)
    ensures forall c :: IsTableWeight(c) ==> NumericOrMissing(CellOf(PreparedRow(r, p, today), c))
  {
    PreparedRowCells(r, p, today);
    PreparedRowConsistent(r, p, today);
  }

  /** A frame of prepared rows meets the table's demand on its weight cells. */
  lemma PreparedFrameTableReady(df: Frame<Col>, raw: seq<Row>, p: Parsers, today: int)
    requires |df.rows| == |raw|
    requires forall i :: 0 <= i < |raw| ==> df.rows[i] == PreparedRow(raw[i], p, today)
    ensures forall i, c :: 0 <= i < |df.rows| && IsTableWeight(c) ==> NumericOrMissing(CellOf(df.rows[i], c))
  {
    forall i | 0 <= i < |df.rows|
      ensures forall c :: IsTableWeight(c) ==> NumericOrMissing(CellOf(df.rows[i], c))
    {
      PreparedTableWeights(raw[i], p, today);
    }
  }

  /**
   * `str(int(round(float(v)))) if pd.notna(v) else ""`: the weight rounded half
   * to even, as decimal text; blank when missing. Cells `float` does not take
   * are outside the model and stay as they are.
   */
  function WeightText(c: Cell): Cell {
    match c
    case NA => Str("")
    case Num(x) => Str(IntToDecimal(RoundHalfEven(x)))
    case Int(n) => Str(IntToDecimal(n))
    case _ => c
  }

  /** A weight is written as `str(round(x))`: canonical integer text that reads back as the weight rounded half to even. */
  lemma WeightTextRoundTrip(x: real)
    ensures var t := WeightText(Num(x));
      && t.Str? && CanonicalIntText(t.s) && ParseInt(t.s) == RoundHalfEven(x)
      && (ParseInt(t.s) as real) - 0.5 <= x <= (ParseInt(t.s) as real) + 0.5
  {
    IntDecimalRoundTrip(RoundHalfEven(x));
  }

  /** A missing weight is written blank, and only a missing weight is. */
  lemma WeightTextBlank(c: Cell)
    requires NumericOrMissing(c)
    ensures WeightText(c) == Str("") <==> c.NA?
  {
  }

  /** `pd.to_datetime(col, errors="coerce").dt.strftime("%Y-%m-%d")`: `NaT` stays missing. */
  function DateText(p: Parsers, c: Cell): Cell {
    match ToDate(p, c)
    case None => NA
    case Some(d) => Str(IsoDate(d))
  }

  /** A date cell is written as its ISO text: ten characters, year, month and day read back. */
  lemma DateTextOfDay(p: Parsers, d: int)
    requires 0 <= CivilFromDays(d).year < 10000
    ensures var t := DateText(p, Day(d)); var c := CivilFromDays(d);
      && t.Str? && |t.s| == 10 && t.s[4] == '-' && t.s[7] == '-'
      && DecimalValue(t.s[..4]) == c.year && DecimalValue(t.s[5..7]) == c.month && DecimalValue(t.s[8..]) == c.day
  {
  }

  /** `tmp[cols]` on one row: the listed columns only. */
  function Project(r: Row, cs: seq<Col>): (s: Row)
    ensures forall c :: c in s <==> c in cs
    ensures forall c :: c in cs ==> s[c] == CellOf(r, c)
  {
    map c | c in cs :: CellOf(r, c)
  }

  /** The listed columns of a row rewritten one after another with `fmt`, reading the row as it stands. */
  function Reformat(r: Row, cs: seq<Col>, fmt: Cell -> Cell): Row
    decreases |cs|
  {
    if cs == [] then r
    else
      var init := Reformat(r, cs[..|cs| - 1], fmt);
      init[cs[|cs| - 1] := fmt(CellOf(init, cs[|cs| - 1]))]
  }

  /** Each listed column, listed once, holds its rewritten cell; the others are as they were. */
  lemma {:induction false} ReformatCells(r: Row, cs: seq<Col>, fmt: Cell -> Cell)
    requires NoDup(cs)
    ensures forall n :: n in Reformat(r, cs, fmt) <==> n in r || n in cs
    ensures forall n :: CellOf(Reformat(r, cs, fmt), n) == if n in cs then fmt(CellOf(r, n)) else CellOf(r, n)
    decreases |cs|
  {
    if cs != [] {
      var init, c := cs[..|cs| - 1], cs[|cs| - 1];
      assert NoDup(init) by {
        forall i, j | 0 <= i < j < |init| ensures init[i] != init[j] {
          assert init[i] == cs[i] && init[j] == cs[j];
        }
      }
      ReformatCells(r, init, fmt);
      assert forall n :: n in cs <==> n in init || n == c;
      assert c !in init by {
        forall i | 0 <= i < |init| ensures init[i] != c {
          assert init[i] == cs[i] && c == cs[|cs| - 1];
        }
      }
    }
  }

  /** What the table shows in column `c` for a cell: weights and dates written as text, the rest as they are. */
  function TableCell(p: Parsers, c: Col, cell: Cell): Cell {
    if IsTableWeight(c) then WeightText(cell)
    else if c.DateCol? then DateText(p, cell)
    else cell
  }

  /** One row of the table's data: exactly its columns, each cell as `TableCell` writes it. */
  function TableRow(r: Row, p: Parsers): (t: Row)
    ensures forall c :: c in t <==> c in TableCols
    ensures forall c :: c in TableCols ==> t[c] == TableCell(p, c, CellOf(r, c))
  {
    map c | c in TableCols :: TableCell(p, c, CellOf(r, c))
  }

  /** One entry of `columns`. */
  datatype TableColumn = TableColumn(name: string, id: string)

  function Min(a: int, b: int): int {
    if a <= b then a else b
  }

  lemma FormatListsNoDup()
    ensures NoDup(TableWeightCols) && NoDup(DateCols)
  {
  }

  /** The columns the table formats are columns it shows. */
  lemma FormattedColsShown(c: Col)
    ensures c in TableWeightCols || c in DateCols ==> c in TableCols
  {
    TableWeightColsMembers(c);
    DateColsMembers(c);
    TableColsMembers(c);
  }

  /** A row after the three steps of the payload: filled, projected, weights then dates rewritten. */
  function PayloadSteps(r: Row, dateFmt: Cell -> Cell): Row {
    Reformat(Reformat(Project(FillAll(r, TableCols), TableCols), TableWeightCols, WeightText), DateCols, dateFmt)
  }

  /** Cell by cell, the steps hold the table's columns and write each as `TableCell` does. */
  lemma PayloadStepsCells(r: Row, p: Parsers, dateFmt: Cell -> Cell)
    requires forall cell :: dateFmt(cell) == DateText(p, cell)
    ensures forall c :: c in PayloadSteps(r, dateFmt) <==> c in TableCols
    ensures forall c :: c in TableCols ==> CellOf(PayloadSteps(r, dateFmt), c) == TableCell(p, c, CellOf(r, c))
  {
    FillAllCells(r, TableCols);
    var projected := Project(FillAll(r, TableCols), TableCols);
    var weighed := Reformat(projected, TableWeightCols, WeightText);
    FormatListsNoDup();
    ReformatCells(projected, TableWeightCols, WeightText);
    ReformatCells(weighed, DateCols, dateFmt);
    forall c
      ensures c in TableWeightCols || c in DateCols ==> c in TableCols
      ensures c in TableWeightCols <==> IsTableWeight(c)
      ensures c in DateCols <==> c.DateCol?
    {
      FormattedColsShown(c);
      TableWeightColsMembers(c);
      DateColsMembers(c);
    }
  }

  /** The three steps the payload takes on a row equal `TableRow` on that row. */
  lemma TableRowSteps(r: Row, p: Parsers, dateFmt: Cell -> Cell)
    requires forall cell :: dateFmt(cell) == DateText(p, cell)
    ensures PayloadSteps(r, dateFmt) == TableRow(r, p)
  {
    PayloadStepsCells(r, p, dateFmt);
    var dated, t := PayloadSteps(r, dateFmt), TableRow(r, p);
    forall c | c in t
      ensures dated[c] == t[c]
    {
      assert CellOf(dated, c) == dated[c];
    }
  }

  /** `for c in cs: out[c] = out[c].map(fmt)`: the listed columns rewritten, one after another. */
  method FormatColumns(f: Frame<Col>, cs: seq<Col>, fmt: Cell -> Cell) returns (g: Frame<Col>)
    ensures |g.rows| == |f.rows|
    ensures forall i :: 0 <= i < |f.rows| ==> g.rows[i] == Reformat(f.rows[i], cs, fmt)
  {
    g := f;
    for k := 0 to |cs|
      invariant |g.rows| == |f.rows|
      invariant forall i :: 0 <= i < |f.rows| ==> g.rows[i] == Reformat(f.rows[i], cs[..k], fmt)
    {
      var c := cs[k];
      assert cs[..k + 1][..k] == cs[..k];
      g := Assign(g, c, RowColumn(g, r => fmt(CellOf(r, c))));
    }
    assert cs[..|cs|] == cs;
  }

  /**
   * build_table_payload: adds the table's columns the frame lacks, all missing;
   * keeps only those columns; writes the weights as whole numbers and the dates as
   * ISO text; returns the first 300 rows and the column list. Every weight cell
   * of the table's columns must be a number or missing, as `float(v)` demands.
   */
  method BuildTablePayload(df: Frame<Col>, p: Parsers) returns (data: seq<Row>, columns: seq<TableColumn>)
    requires WellFormed(df)
    requires forall i, c :: 0 <= i < |df.rows| && IsTableWeight(c) ==> NumericOrMissing(CellOf(df.rows[i], c))
    ensures |data| == Min(|df.rows|, MaxTableRows)
    ensures forall i :: 0 <= i < |data| ==> data[i] == TableRow(df.rows[i], p)
    ensures |columns| == |TableCols|
    ensures forall j :: 0 <= j < |columns| ==> columns[j] == TableColumn(TableCols[j].Name(), TableCols[j].Name())
  {
    var tmp := FillColumns(df, TableCols);
    var out := Frame((set c | c in TableCols), Map(tmp.rows, (r: Row) => Project(r, TableCols)));
    var projected := out.rows;
    out := FormatColumns(out, TableWeightCols, WeightText);
    var weighed := out.rows;
    var dateFmt := (cell: Cell) => DateText(p, cell);
    out := FormatColumns(out, DateCols, dateFmt);
    data := out.rows[..Min(|out.rows|, MaxTableRows)];
    forall i | 0 <= i < |data|
      ensures data[i] == TableRow(df.rows[i], p)
    {
      assert data[i] == PayloadSteps(df.rows[i], dateFmt);
      TableRowSteps(df.rows[i], p, dateFmt);
    }
    columns := Map(TableCols, (c: Col) => TableColumn(c.Name(), c.Name()));
  }
}
