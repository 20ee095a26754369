/**
 * The choices the filter controls offer (src/filters.py): for each categorical
 * column, its non-blank values once each in code-point order, labelled by
 * themselves; for each date column, the earliest and latest date present,
 * which bound what the date pickers let the user choose.
 */
module Filters {
  import opened Wrappers
  import opened Text
  import opened Seqs
  import opened Data

  /** Python's `<` on `str`, as a relation the sorting helpers take. */
  const ByCodePoint: (string, string) -> bool := (a: string, b: string) => StrLt(a, b)

  lemma ByCodePointOrder()
    ensures StrictTotalOrder(ByCodePoint)
  {
    forall a: string
      ensures !ByCodePoint(a, a)
    {
      StrLtIrreflexive(a);
    }
    forall a: string, b: string, c: string | ByCodePoint(a, b) && ByCodePoint(b, c)
      ensures ByCodePoint(a, c)
    {
      StrLtTransitive(a, b, c);
    }
    forall a: string, b: string
      ensures a == b || ByCodePoint(a, b) || ByCodePoint(b, a)
    {
      StrLtTotal(a, b);
    }
  }

  /** Some row holds `v` in the column `field`. */
  ghost predicate Occurs(rows: seq<Record>, field: Record -> string, v: string) {
    exists r :: r in rows && field(r) == v
  }

  /** `sorted([x for x in df[col].unique() if x])`: the non-blank values, once each, ascending. */
  function Choices(rows: seq<Record>, field: Record -> string): (r: seq<string>)
    ensures StrictlyAscending(r, ByCodePoint) && NoDup(r)
    ensures forall v :: v in r <==> v != "" && Occurs(rows, field, v)
  {
    ByCodePointOrder();
    var column := Map(rows, field);
    forall v
      ensures v in column <==> Occurs(rows, field, v)
    {
      if Occurs(rows, field, v) {
        var r :| r in rows && field(r) == v;
        var i :| 0 <= i < |rows| && rows[i] == r;
        assert column[i] == v;
      }
    }
    var present := Select(Distinct(column), (v: string) => v != "");
    var r := SortedDistinct(present, ByCodePoint);
    StrictlyAscendingNoDup(r, ByCodePoint);
    r
  }

  /** A dropdown entry `{"label": v, "value": v}`; `label` is a Dafny keyword, hence `caption`. */
  datatype Choice = Choice(caption: string, value: string)

  function ValueOf(c: Choice): string { c.value }

  /** `opt(vals)`: each value becomes an entry labelled by itself, in the same order. */
  function Opt(vals: seq<string>): (r: seq<Choice>)
    ensures |r| == |vals|
    ensures forall i :: 0 <= i < |r| ==> r[i].caption == r[i].value == vals[i]
  {
    Map(vals, (v: string) => Choice(v, v))
  }

  lemma OptValues(vals: seq<string>)
    ensures Map(Opt(vals), ValueOf) == vals
  {
  }

  /**
   * What a dropdown offers for a column: every entry is labelled by its value,
   * the values are in code-point order without repeats, and they are exactly
   * the non-blank values the column holds.
   */
  ghost predicate Offers(opts: seq<Choice>, rows: seq<Record>, field: Record -> string) {
    && (forall c :: c in opts ==> c.caption == c.value)
    && StrictlyAscending(Map(opts, ValueOf), ByCodePoint)
    && (forall v :: v in Map(opts, ValueOf) <==> v != "" && Occurs(rows, field, v))
  }

  /** Only one list of entries meets `Offers`: the dropdown's contents are determined by the column. */
  lemma OffersUnique(a: seq<Choice>, b: seq<Choice>, rows: seq<Record>, field: Record -> string)
    requires Offers(a, rows, field) && Offers(b, rows, field)
    ensures a == b
  {
    ByCodePointOrder();
    StrictlyAscendingUnique(Map(a, ValueOf), Map(b, ValueOf), ByCodePoint);
    assert |a| == |b|;
    forall i | 0 <= i < |a|
      ensures a[i] == b[i]
    {
      assert a[i] in a && b[i] in b;
      assert a[i].value == Map(a, ValueOf)[i] == Map(b, ValueOf)[i] == b[i].value;
    }
  }

  /** Offering the values of a column, then choosing all of them, keeps every row whose value is not blank. */
  lemma ChoosingAllOffered(opts: seq<Choice>, rows: seq<Record>, field: Record -> string, r: Record)
    requires Offers(opts, rows, field) && r in rows
    ensures field(r) != "" ==> InSelection(Map(opts, ValueOf), field(r))
    ensures opts != [] ==> (InSelection(Map(opts, ValueOf), field(r)) <==> field(r) != "")
    ensures opts == [] ==> InSelection(Map(opts, ValueOf), field(r))
  {
  }

  /** `df[col].min()`: the earliest date present; `NaT` (here `None`) when no row has one. */
  function MinDay(ds: seq<Option<int>>): (m: Option<int>)
    ensures m.None? <==> forall i :: 0 <= i < |ds| ==> ds[i].None?
    ensures m.Some? ==> m in ds && forall i :: 0 <= i < |ds| && ds[i].Some? ==> m.value <= ds[i].value
    decreases |ds|
  {
    if ds == [] then None
    else
      var rest := MinDay(ds[1..]);
      assert forall i :: 1 <= i < |ds| ==> ds[i] == ds[1..][i - 1];
      if ds[0].None? then rest
      else if rest.None? || ds[0].value <= rest.value then ds[0]
      else rest
  }

  /** `df[col].max()`: the latest date present; `None` when no row has one. */
  function MaxDay(ds: seq<Option<int>>): (m: Option<int>)
    ensures m.None? <==> forall i :: 0 <= i < |ds| ==> ds[i].None?
    ensures m.Some? ==> m in ds && forall i :: 0 <= i < |ds| && ds[i].Some? ==> ds[i].value <= m.value
    decreases |ds|
  {
    if ds == [] then None
    else
      var rest := MaxDay(ds[1..]);
      assert forall i :: 1 <= i < |ds| ==> ds[i] == ds[1..][i - 1];
      if ds[0].None? then rest
      else if rest.None? || ds[0].value >= rest.value then ds[0]
      else rest
  }

  /**
   * The bounds of a date column: both missing when no row has the date; else
   * two dates some rows hold, with every row's date between them.
   */
  ghost predicate Bounds(lo: Option<int>, hi: Option<int>, rows: seq<Record>, date: Record -> Option<int>) {
    && (lo.None? <==> forall r :: r in rows ==> date(r).None?)
    && (hi.None? <==> lo.None?)
    && (lo.Some? ==> && lo.value <= hi.value
                     && (exists r :: r in rows && date(r) == lo)
                     && (exists r :: r in rows && date(r) == hi)
                     && forall r :: r in rows && date(r).Some? ==> lo.value <= date(r).value <= hi.value)
  }

  lemma DayBounds(rows: seq<Record>, date: Record -> Option<int>)
    ensures Bounds(MinDay(Map(rows, date)), MaxDay(Map(rows, date)), rows, date)
  {
    var ds := Map(rows, date);
    var lo, hi := MinDay(ds), MaxDay(ds);
    forall r | r in rows
      ensures date(r) in ds
    {
      var i :| 0 <= i < |rows| && rows[i] == r;
      assert ds[i] == date(r);
    }
    if lo.Some? {
      var i :| 0 <= i < |ds| && ds[i] == lo;
      assert rows[i] in rows && date(rows[i]) == lo;
      var j :| 0 <= j < |ds| && ds[j] == hi;
      assert rows[j] in rows && date(rows[j]) == hi;
    } else {
      forall r | r in rows
        ensures date(r).None?
      {
        var i :| 0 <= i < |rows| && rows[i] == r;
        assert ds[i] == date(r);
      }
    }
  }

  /** Setting a date-range picker to the column's bounds removes only the rows without that date. */
  lemma BoundsKeepDated(lo: Option<int>, hi: Option<int>, rows: seq<Record>, date: Record -> Option<int>, r: Record)
    requires Bounds(lo, hi, rows, date) && r in rows && lo.Some?
    ensures InRange([lo, hi], date(r)) <==> date(r).Some?
  {
  }

  /** Everything build_filter_options_and_bounds returns. */
  datatype FilterOptions = FilterOptions(
    clientes: seq<Choice>, osList: seq<Choice>, tags: seq<Choice>, situacoes: seq<Choice>,
    recebMin: Option<int>, recebMax: Option<int>, expMin: Option<int>, expMax: Option<int>,
    dtDefaults: seq<Option<int>>)

  /** build_filter_options_and_bounds over the rows of the stored table. */
  function BuildFilterOptionsAndBounds(rows: seq<Record>): (o: FilterOptions)
    ensures Offers(o.clientes, rows, ClienteOf)
    ensures Offers(o.osList, rows, OsClienteOf)
    ensures Offers(o.tags, rows, TagOf)
    ensures Offers(o.situacoes, rows, SituacaoOf)
    ensures Bounds(o.recebMin, o.recebMax, rows, DtRecebOf)
    ensures Bounds(o.expMin, o.expMax, rows, DtExpedOf)
    ensures o.dtDefaults == [None, None, None, None]
  {
    OptValues(Choices(rows, ClienteOf));
    OptValues(Choices(rows, OsClienteOf));
    OptValues(Choices(rows, TagOf));
    OptValues(Choices(rows, SituacaoOf));
    DayBounds(rows, DtRecebOf);
    DayBounds(rows, DtExpedOf);
    FilterOptions(
      Opt(Choices(rows, ClienteOf)), Opt(Choices(rows, OsClienteOf)),
      Opt(Choices(rows, TagOf)), Opt(Choices(rows, SituacaoOf)),
      MinDay(Map(rows, DtRecebOf)), MaxDay(Map(rows, DtRecebOf)),
      MinDay(Map(rows, DtExpedOf)), MaxDay(Map(rows, DtExpedOf)),
      [None, None, None, None])
  }

  /** The empty-store answer of init_filters, and what clear_filters resets the controls to. */
  const Cleared := FilterSpec([], [], [], [], [None, None], [None, None], "")

  /** After clear_filters every row is shown again. */
  lemma ClearedShowsAll(rows: seq<Record>)
    ensures Filtered(Cleared, rows) == rows
  {
    InactiveIsIdentity(Cleared, rows);
  }
}
