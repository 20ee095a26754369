# Production dashboard core, in Dafny

This project models the data core of a Dash dashboard that follows steel
drawings through a fabrication shop: preparation, assembly, welding, finishing,
painting and shipping, all measured in kilograms. It proves properties of that
model. Every KPI card, insight, table row and chart of the dashboard is
computed from the same pipeline:

1. **Preparing a spreadsheet** (`prepare_df` in `src/data.py`). Headers arrive
   already normalised by `load_excel_local`, whose workbook reading is not modelled. They are
   renamed through a fixed alias table. `Data.PrepareDf` accepts any header
   set, and `Data.NormalizeCol` is modelled on its own. Missing required
   columns are added as all-missing. Dates and weights are coerced. Then the
   derived columns are computed: the produced weight, the current stage, the
   two clamped balances, the lead time and the late flag.
2. **Filtering the prepared rows** (`apply_filters`). This is a
   conjunction of categorical, date-range and substring predicates. An empty
   input switches a predicate off.
3. **Aggregating the filtered rows**:
   - the KPI figures, `fmt_kg` and the insight list (`src/insights.py`);
   - the 300-row detail table;
   - the filter options and date bounds (`src/filters.py`);
   - the data behind each chart (`src/charts.py`).

The model keeps the program's form, file by file.

**`Data`** (data.py). `prepare_df` is a method. It reassigns a local frame step
by step, with one step method per block:
- `FillColumns` and `AddMissingColumns`;
- `CoerceDates`, `CoerceWeights` and `CoerceText`;
- `AddDerived`.

A frame is a value (`Frame(columns, rows)`, each row a `map` from column to
cell). That is faithful because the source works on `df.copy()`. Each step is
proved to equal a per-row function. The result is proved to read back, row by
row, as the record that the pure `PrepareRow` specifies.

`apply_filters` is a method that narrows `out` block by block. It is proved
equal to the one-pass selection `Filtered`. The subsequence, idempotence and
identity lemmas are stated about `Filtered`.

**`Insights`** (insights.py). `fmt_kg`, `compute_kpis` and `build_insights`
are functions. `build_table_payload` is a method, because it rewrites its
copied frame column by column. It takes a prepared frame of cells
(`Frame<Col>`), not the `seq<Record>` the filter returns.

**`Filters`** and **`Charts`** (filters.py, charts.py) are pure functions.

**Support modules.** These hold the Python and pandas behaviour that the four
files rely on:
- `Text`: `str.strip`, `str.split` and `" ".join`, `str.lower`, literal
  `contains`, code-point string order, decimal text;
- `Dates`: day numbers to civil dates, `strftime("%Y-%m-%d")`, the Monday that
  starts a `to_period("W")` week;
- `Seqs`: order-preserving selection, sums, group sums, arg-max, sorting;
- `Wrappers`: `Option`.

**How values are represented.**
- A table of prepared records is a `seq<Record>`.
- Weights are `real`.
- Dates are `Option<int>` day numbers; `None` is `NaT`.
- Lead times are `Option<int>`.
- The `today` of the late flag is a parameter.
- `pd.to_datetime`, `pd.to_numeric` and `astype("string")`, applied to cells
  whose grammar the model does not describe, are the total functions of a
  `Parsers` parameter. Cells that are already a date, a number, a string or
  missing are handled concretely.

**Where the dashboard's written description and its code disagree, the model
follows the code:**
- The description calls weights non-negative. The code never clamps a parsed
  weight, so weights are any `real`. Properties that need non-negative totals
  (the funnel and conversion bounds, the late weight and the bottleneck) take
  that as a hypothesis.
- The description says text fields are never missing. `prepare_df`
  blank-fills five text columns (src/data.py:131-132) but not `cliente`; only
  the store does that (src/data.py:167). The records the model hands to the
  filters and aggregates are the ones read back through the store, with
  `cliente` blank-filled.
- The description fixes a tie-break precedence for the bottleneck stage. The
  code sorts with pandas' default sort and promises no particular winner. The
  contracts promise "a group whose sum is maximal", not a particular one.
- The description's worked example names "Não iniciado" as the bottleneck.
  Its three rows are:
  - 100 kg, shipped;
  - 200 kg with 50 kg prepared;
  - 50 kg with nothing done.

  The code's grouping gives "Preparação" (200 kg) instead, and so does
  `Insights.Bottleneck`, whose contract requires the reported stage's sum to be
  at least every other unshipped stage's sum.
- The description writes missing dates in the table as empty text. The code
  formats them with `strftime`, which leaves `NaT` missing (null). The model
  keeps them missing (`NA`).
- The description activates the substring filter only on text that is
  non-empty after trimming. The code tests the untrimmed text. The behaviour is
  the same, because the trimmed empty needle matches every row; the model
  follows the code's test.

## Model

| member | source | states |
|---|---|---|
| Data.CollapseSpaces | src/data.py:19 | `re.sub(r"\s+", " ", ...)`: every whitespace in the result is a plain space and no two are adjacent; a leading whitespace run becomes one space and a leading non-space character is kept |
| Data.CollapseSpacesWords | src/data.py:19 | `re.sub(r"\s+", " ", s)` is the words of `s` (as `str.split()` finds them) joined by single spaces, with one space in front exactly when `s` starts with whitespace and one behind exactly when it ends with whitespace after some word: each whitespace run becomes exactly one space and no space appears anywhere else |
| Data.CollapseSpacesNonSpace | src/data.py:19 | collapsing whitespace keeps the non-space characters, in order |
| Data.NormalizedCollapse | src/data.py:18-19 | collapsing the whitespace of a stripped header gives a normalised header: no edge whitespace, no newline, no two consecutive whitespace characters |
| Data.NormalizeCol | src/data.py:17-20 | the normalised header is `" ".join(c.split())`: the header's words, in order, one space apart; so it has no leading or trailing whitespace, no newline, no two consecutive whitespace characters, and the same non-space characters in the same order |
| Data.WordsReplaceNewlines | src/data.py:18 | replacing newlines by spaces changes no word of the header |
| Text.WordsStrip | src/data.py:18 | `str.strip()` changes no word of the header |
| Text.WordsAreWords | src/data.py:19 | every word a header splits into is non-empty and holds no whitespace, and a header starting with a non-space character starts its first word with it |
| Text.Words | src/data.py:19 | a string has no words exactly when it is all whitespace |
| Data.NormalizeColIdempotent | src/data.py:17-20 | normalising a header twice gives the same header as normalising it once |
| Data.NormalizeColFixpoint | src/data.py:17-20 | a header that is already normalised is left unchanged |
| Data.TotalWeightAliases | src/data.py:55-77 | a header renames to `peso_total_kg` exactly when it is one of "PESO TOTAL ( KG)", "PESO TOTAL ( KG )", "PESO TOTAL (KG)" or already `peso_total_kg` |
| Data.PaintedAliases | src/data.py:72-77 | a header renames to `pint_kg` exactly when it is "DESENHOS PITADOS (KG)", "DESENHOS PINTADOS (KG)" or already `pint_kg` |
| Data.ColNamed | src/data.py:76-77 | a header that is not renamed (one not in the alias table) names a canonical column exactly when its text is that column's name, and is otherwise kept as an unknown column of that same name |
| Data.FindCol | src/data.py:76-77 | a search of a column list by name finds a listed column of that name, or reports that none has it |
| Data.CanonicalColsComplete | src/data.py:50-85 | the canonical columns are exactly the non-unknown ones |
| Data.RenameRow | src/data.py:76-77 | a renamed row has a cell under the renamed name of each original header, holding that header's cell, and no other cells |
| Data.Renamed | src/data.py:76-77 | renaming keeps the row count; the new column set is the image of the old one under renaming; each row is renamed cell by cell |
| Data.Missing | src/data.py:86-88 | an added column has one cell per row, and every cell is missing |
| Data.Assign | src/data.py:88 | assigning a column adds it to the column set and sets that cell in each row, leaving every other cell as it was |
| Data.FillAllCells | src/data.py:86-88 | filling required columns adds every required column, keeps every existing column and changes no cell's value |
| Data.FillColumns | src/data.py:86-88 | the frame after the loop has every listed column, the same rows and the same old columns, each row filled |
| Data.AddMissingColumns | src/data.py:79-88 | after the required-column loop, every required field is a column, and rows and existing cells are unchanged |
| Data.ToWeight | src/data.py:95-96 | a missing or unparseable weight becomes 0.0, and a numeric cell keeps its value |
| Data.DateCellRoundTrip | src/data.py:91-93 | a coerced date, coerced again, is the same date (or stays missing) |
| Data.ConvertedIdempotent | src/data.py:91-96 | coercing a date or weight cell twice gives the same cell as coercing it once |
| Data.ConvertAllCells | src/data.py:91-96 | converting a list of columns converts exactly those cells and leaves every other cell as it was |
| Data.CoerceDates | src/data.py:91-93 | each row of the result is the input row with its three date cells coerced |
| Data.CoerceWeights | src/data.py:95-96 | each row of the result is the input row with its seven weight cells coerced to numbers |
| Data.CoerceText | src/data.py:131-132 | each row of the result is the input row with its five text cells turned into strings, missing ones into "" |
| Data.Produced | src/data.py:99 | the produced weight is at least each of pint, acab, sold, mont and prep |
| Data.ProducedIsMax | src/data.py:99 | the produced weight equals one of the five stage weights: their maximum, not their sum |
| Data.StageOfRowFirstMatch | src/data.py:102-115 | the stage is "Expedido" iff the shipped weight is > 0; "Não iniciado" iff nothing is shipped (shipped weight ≤ 0) and all five stage weights are ≤ 0; otherwise a stage whose weight is > 0 while every later stage's weight is ≤ 0 |
| Data.Clamp0 | src/data.py:120-121 | a clamped balance is ≥ 0 and ≥ the difference |
| Data.Clamp0Least | src/data.py:120-121 | the clamped value is the least number that is ≥ 0 and ≥ the difference, i.e. `max(0, x)` |
| Data.LeadTime | src/data.py:124 | the lead time is missing iff either date is missing; otherwise receipt plus lead time is the shipping date |
| Data.PrepareRow | src/data.py:91-132 | a prepared record has every field coerced from its raw cell, and its derived fields satisfy `Prepared`: produced = max of stages, the first-match stage label, the two clamped balances, the lead time and the late flag (due date present, earlier than today, nothing shipped) |
| Data.PreparedBacklogs | src/data.py:120-121 | in a prepared record both balances are ≥ 0, even when produced > total, and each is ≥ its difference |
| Data.PreparedStageProduced | src/data.py:99-117 | a record in a shop-floor stage has produced at least that stage's positive weight; one not started has produced nothing |
| Data.DeriveRowCells | src/data.py:99-128 | the derived cells of a row are the produced maximum, the stage label, the two clamped balances, the lead time and the late flag, each computed from that row's coerced cells |
| Data.DeriveRowKeeps | src/data.py:99-128 | deriving writes only the derived columns |
| Data.DeriveRowConsistent | src/data.py:99-128 | a derived row's derived cells agree with its own weights and dates |
| Data.AddDerived | src/data.py:99-128 | the frame after the derivation has every derived column, and each row is the input row with its derived cells written |
| Data.CoercedCell | src/data.py:91-96 | after coercion, date and weight cells are converted and every other cell is as it was |
| Data.PreparedCell | src/data.py:91-132 | each non-derived cell of a prepared row is its renamed cell, converted according to its column's kind |
| Data.PreparedRowCells | src/data.py:79-132 | preparation leaves unknown columns and `cliente` untouched, and every weight column of a prepared row is numeric |
| Data.PreparedRowConsistent | src/data.py:99-132 | the derived cells of a prepared row agree with its final weights and dates, after the text conversion that follows them |
| Data.PreparedRowRecord | src/data.py:43-134 | a prepared row reads back as the record `PrepareRow` specifies for its renamed raw cells |
| Data.PrepareDf | src/data.py:43-134 | `prepare_df` keeps the row count, has every required and derived column, and each output row is the renamed input row prepared, reading back as the record `PrepareRow` specifies |
| Data.Records | src/data.py:137-171 | reading a frame back through the store gives one record per row, in order |
| Data.PreparedRecords | src/data.py:43-134 | every record read back from a prepared frame satisfies `Prepared` |
| Data.NarrowBySelection | src/data.py:194-202 | a categorical block keeps, in order, exactly the rows whose field is in the selection, and keeps all rows when the selection is empty |
| Data.NarrowByRange | src/data.py:205-217 | a date block with a two-element range keeps, in order, exactly the rows whose date is present and within each set bound; a range of another length or with no bound set keeps all rows |
| Data.NarrowByText | src/data.py:220-222 | the substring block keeps, in order, exactly the rows whose lowercased `desenho_pai` contains the trimmed, lowercased text |
| Data.ApplyFilters | src/data.py:174-224 | the successive narrowing of `out` equals the one-pass selection of the rows passing every active predicate |
| Data.FilteredIsSubseq | src/data.py:193-224 | the filtered rows are an order-preserving subsequence of the input |
| Data.FilteredMembers | src/data.py:193-224 | a row is in the output iff it is in the input and passes every active predicate |
| Data.FilteredIdempotent | src/data.py:193-224 | filtering twice with the same arguments equals filtering once |
| Data.InactiveIsIdentity | src/data.py:193-224 | with all selections empty, no date bound and an empty text, the input comes back unchanged |
| Data.KeptRow | src/data.py:194-222 | a kept row's categorical fields are members of their non-empty selections; its dates are present and within every set bound; its lowercased `desenho_pai` has the trimmed, lowercased text at some position as a literal substring |
| Data.RangeBounds | src/data.py:205-217 | a date within a two-sided range is present whenever either bound is set, and is at or after the start bound and at or before the end bound |
| Text.Strip | src/data.py:18 | `str.strip` leaves no whitespace at either end |
| Text.TrimStart | src/data.py:18 | the result is a suffix of the input whose first character is not whitespace, and everything cut before it is whitespace |
| Text.TrimEnd | src/data.py:18 | the result is a prefix of the input whose last character is not whitespace, and everything cut after it is whitespace |
| Text.Lower | src/data.py:221-222 | `lower` maps each character on its own and keeps the length; ASCII capitals become lower case |
| Text.ContainsAt | src/data.py:222 | a literal (escaped) `contains` holds iff the needle occurs at some position of the haystack |
| Text.NatToDecimal | src/insights.py:15-16 | the decimal text of a natural number is non-empty, all digits and has no leading zero |
| Text.DecimalRoundTrip | src/insights.py:15-16 | the decimal text of a natural number reads back as that number |
| Text.IntToDecimal | src/insights.py:122 | `str(int)` is canonical integer text: a minus sign exactly when the number is negative, then at least one digit, with no leading zero except in "0" itself and no "-0" |
| Text.CanonicalIntTextUnique | src/insights.py:122 | two canonical integer texts that read back as the same integer are the same text, so the integer determines what `str(int)` writes |
| Text.DecimalUnique | src/insights.py:122 | two digit strings without leading zeros that denote the same number are equal |
| Text.IntDecimalRoundTrip | src/insights.py:122 | `str(int)` parsed back gives the same integer |
| Dates.CivilFromDays | src/insights.py:125 | the calendar date of a day number counts back to that same day number |
| Dates.Padded | src/insights.py:125 | a zero-padded field has the requested width, is all digits and reads back as the number |
| Dates.IsoDate | src/insights.py:125 | for years 0 to 9999, `strftime("%Y-%m-%d")` writes the year in four digits, the month and the day in two, separated by '-', each reading back as the calendar date of the day |
| Dates.WeekStart | src/charts.py:53-54 | the start of a date's week is a Monday, on or before the date and less than seven days before it |
| Filters.ByCodePointOrder | src/filters.py:9-12 | the order `sorted` puts strings in is a strict total order |
| Filters.Choices | src/filters.py:9-12 | an option list is strictly ascending and duplicate-free, and holds exactly the non-empty values that occur in its column |
| Filters.Opt | src/filters.py:14-15 | each option has label equal to value equal to the listed value, in the same order |
| Filters.OptValues | src/filters.py:14-15 | the values of the options are the input list |
| Filters.OffersUnique | src/filters.py:9-15 | the option list for a column is determined by the rows: any two lists meeting the contract are equal |
| Filters.ChoosingAllOffered | src/filters.py:9-15 | when at least one option is offered, selecting every offered option keeps exactly the rows whose value is non-empty; when none is offered, the selection is empty, the filter is off and every row is kept |
| Filters.MinDay | src/filters.py:17-25 | the lower bound is missing iff every date is missing; otherwise it is one of the dates and no present date is earlier |
| Filters.MaxDay | src/filters.py:17-25 | the upper bound is missing iff every date is missing; otherwise it is one of the dates and no present date is later |
| Filters.DayBounds | src/filters.py:17-25 | the bounds of a column are both missing or both present; when present, min ≤ max and every present date lies between them |
| Filters.BoundsKeepDated | src/filters.py:17-25 | a range set to a column's own bounds keeps exactly the rows with that date present |
| Filters.BuildFilterOptionsAndBounds | src/filters.py:8-39 | the four option lists meet the option contract for `cliente`, `os_cliente`, `tag` and `situacao_desenho`; the two pairs of bounds meet the bounds contract; the defaults are four `None` |
| Filters.ClearedShowsAll | app.py:134-138 | the filter state restored by the clear button selects every row |
| Insights.RoundHalfEven | src/insights.py:15 | `round` gives an integer within 0.5 of the value, and an even one on a tie |
| Insights.RoundHalfEvenUnique | src/insights.py:15 | any integer within 0.5 of the value, and even on a tie, is the one `round` returns |
| Insights.GroupThousandsRoundTrip | src/insights.py:16 | removing the thousands separators from a grouped digit string gives back the digits |
| Insights.GroupThousandsShape | src/insights.py:16 | a grouped digit string has a first group of 1 to 3 digits followed by groups of exactly three digits, each after a '.' |
| Insights.IntGroupedShape | src/insights.py:16 | the grouped text starts with "-" exactly when the integer is negative; after that comes the thousands shape, which with its dots removed is exactly `str(abs(n))` |
| Insights.IntGroupedRoundTrip | src/insights.py:16 | an integer written with '.' grouping is, once the dots are removed, exactly `str(n)`, which reads back as that integer |
| Insights.FmtKgRoundTrip | src/insights.py:9-16 | a present weight is written as thousands-grouped digits after an optional minus, ending in " kg"; with the dots removed the number part is canonical integer text (no leading zero) reading back as the weight rounded half to even, so it is exactly `str(round(v))` regrouped |
| Insights.FmtKgMissing | src/insights.py:13-14 | "-" is written exactly for a missing weight |
| Insights.Share | src/insights.py:50-51 | a zero-guarded ratio times a positive denominator gives the numerator, and is 0 when the denominator is ≤ 0; it lies in [0, 1] when 0 ≤ numerator ≤ denominator |
| Insights.LeadTimes | src/insights.py:53 | the lead-time sample holds exactly the non-missing, non-negative lead times of the rows, each value v ≥ 0 occurring once per row whose lead time is v, so the mean averages one entry per qualifying row |
| Insights.LeadTimesEmpty | src/insights.py:53-54 | the sample is empty iff no row has a non-missing, non-negative lead time |
| Insights.MeanLeadTime | src/insights.py:53-54 | the mean lead time is absent iff no row has a non-missing, non-negative lead time; otherwise it is the sample mean, which is ≥ 0 |
| Insights.MeanLeadTimeBounds | src/insights.py:53-54 | the mean lead time is at most any bound on the lead times in the sample |
| Insights.Figures | src/insights.py:43-54 | the totals are column sums; each balance is ≥ 0, ≥ its difference, and either 0 or that difference; both percentages are 0 when the total is ≤ 0 and otherwise are the produced and shipped shares of the total; the mean lead time is as above |
| Insights.ComputeKpis | src/insights.py:30-69 | there are eight cards in the fixed title order; every value is "-" when there are no rows; otherwise the cards carry the totals, clamped balances, shares and mean lead time, with "-" for an absent mean |
| Insights.KpisDashOnlyWithoutData | src/insights.py:30-69 | the first card shows "-" exactly when there are no rows |
| Insights.WipLabelsAreUnshippedStages | src/insights.py:84 | the labels kept for the bottleneck are exactly the labels of the stages other than shipped |
| Insights.Bottleneck | src/insights.py:84-87 | with no unshipped row the bottleneck is "-" with 0; otherwise it is an unshipped stage label carried by some row, its weight is that stage's summed total weight, and no unshipped stage sums to more |
| Insights.StageLoadInWip | src/insights.py:84-85 | keeping only the unshipped rows does not change any unshipped stage's summed weight |
| Insights.BottleneckWithinWip | src/insights.py:84-87 | with non-negative totals, the bottleneck's weight lies between 0 and the total weight |
| Insights.OsWithMostWip | src/insights.py:89-91 | with no rows the result is "-" with 0; otherwise it is the `os_cliente` of some row, "" included, whose summed weight to ship is ≥ every other group's |
| Insights.LateWeightBounded | src/insights.py:82 | with non-negative totals, the late weight lies between 0 and the total weight |
| Insights.BuildInsights | src/insights.py:72-99 | with no rows the panel is the message "Sem dados suficientes."; otherwise it has five items in fixed order: the bottleneck, WIP, backlog, late weight and OS with most WIP, formatted by `fmt_kg` |
| Insights.InsightsAgreeWithKpis | src/insights.py:76-80 | the WIP and backlog in the insights panel are the same formatted figures as on the KPI cards |
| Insights.WeightTextRoundTrip | src/insights.py:122 | a present weight is written as canonical integer text (no leading zero) that reads back as the weight rounded half to even, so 2.5 is written "2", and lies within 0.5 of the weight |
| Insights.WeightTextBlank | src/insights.py:122 | a weight cell is written "" exactly when it is missing |
| Insights.DateTextOfDay | src/insights.py:124-125 | a present date is written as ten characters, YYYY-MM-DD, reading back as its calendar date |
| Insights.Project | src/insights.py:118 | selecting the table columns keeps exactly those columns, with their cells, and a missing one as a missing cell |
| Insights.ReformatCells | src/insights.py:120-125 | reformatting a list of columns changes exactly those cells, each by the formatter |
| Insights.TableRow | src/insights.py:113-125 | a table row has exactly the sixteen columns, each cell formatted for its column from the prepared row |
| Insights.PayloadStepsCells | src/insights.py:113-125 | adding absent columns, selecting, then rewriting weights and dates gives each shown column its formatted cell |
| Insights.TableRowSteps | src/insights.py:113-125 | the step-by-step rewriting of a row equals the table row it specifies |
| Insights.FormatColumns | src/insights.py:120-125 | the column-rewriting loops reformat every row of the frame and keep the row count |
| Insights.BuildTablePayload | src/insights.py:102-129 | the payload holds the first min(n, 300) rows in input order, each the table row of its prepared row, and the column metadata is `{name, id}` for the sixteen columns in order |
| Insights.PreparedTableWeights | src/insights.py:121-122 | after preparation, every weight the table rewrites (the two sheet weights and the three derived ones) is a number, so `float(v)` accepts it |
| Insights.PreparedFrameTableReady | src/insights.py:121-122 | a frame whose rows are all prepared rows meets the table's demand that each of its weight cells be numeric or missing |
| Charts.PlotTemplate | src/charts.py:10-11 | the template is "plotly_dark" iff the theme is "dark", and "plotly_white" otherwise |
| Charts.Funnel | src/charts.py:21-31 | there are seven bars with the fixed labels; the first is the summed total weight, and each later one is the summed total weight of the rows whose prep, mont, sold, acab, pint or shipped weight (in that order) is > 0 |
| Charts.ReachedWithinScope | src/charts.py:21-29 | with non-negative totals, every reach value lies between 0 and the total scope |
| Charts.FunnelWithinScope | src/charts.py:21-29 | with non-negative totals, every funnel bar lies between 0 and the first bar |
| Charts.Conversion | src/charts.py:99-110 | there are six ratios with the fixed step labels; ratio i is the zero-guarded share of reach i+1 over reach i, reach 0 being the total scope |
| Charts.ConversionOfFunnel | src/charts.py:99-110 | each conversion ratio is the share of the next funnel bar over the bar before it |
| Charts.ConversionNonneg | src/charts.py:99-110 | with non-negative totals, every ratio is ≥ 0 and the first is ≤ 1 |
| Charts.WipByStage | src/charts.py:39 | there is one bar per distinct `etapa_atual`, no stage twice, each bar the stage's summed total weight, in ascending order of weight |
| Charts.WeekStartIff | src/charts.py:53-54 | a date's week starts on Monday w iff the date lies in [w, w + 7) |
| Charts.Weekly | src/charts.py:52-57 | the weekly points are in strictly ascending week order; each is a Monday that some dated row falls in, carrying the summed weight of the rows dated in that week; every dated row's week has a point; undated rows are dropped |
| Charts.WeekStarts | src/charts.py:53-56 | the week buckets are in strictly ascending order, each is a Monday that is the week start of some dated row, and every dated row's week start is among them |
| Charts.WeeksOfDated | src/charts.py:53-56 | the weeks grouped are the week starts of the dated rows and nothing else |
| Charts.WeekGroup | src/charts.py:56-57 | the group sum of a week over the dated rows is the sum over the rows dated in that week |
| Charts.RankedOs | src/charts.py:74-78 | the groups ranked are exactly the non-blank `os_cliente` values of the rows, once each, each with its summed weight to produce and total weight, in descending order of weight to produce |
| Charts.TopOs | src/charts.py:74-78 | at most ten non-blank OS groups, no OS twice, each with its sums, in descending order of weight to produce; a non-blank OS left out means ten are shown and none of them has less weight to produce |
| Charts.LeadTimeWindow | src/charts.py:92 | the histogram sample holds exactly the non-missing lead times v with 0 ≤ v ≤ 3650, each such v occurring once per row whose lead time is v, so every histogram count is a row count |
| Charts.LeadTimeWindowMatchesKpi | src/charts.py:92 | when no lead time exceeds 3650 days, the histogram sample is the same sequence as the one the mean-lead-time KPI averages |

## Left out

- Reading the workbook (src/data.py:31-40) and app start-up (app.py): these are file I/O. The model starts from a header set and rows of cells.
- The store (src/data.py:137-171): it is treated as the identity on prepared records. `Data.Records` reads a prepared frame back as records, with `cliente` blank-filled as the store does.
- `pd.to_datetime`, `pd.to_numeric` and `astype("string")` on cells of unknown shape: they are the total functions of a `Parsers` parameter. No date or number grammar is modelled.
- `date.today()`: it is the `today` parameter of the late flag.
- Time of day: dates are whole day numbers, so timestamps within a day are not distinguished.
- Floating point: weights and ratios are exact reals. `int(round(float(x)))` is round-half-to-even on that real, with no binary rounding error.
- Insights.ComputeKpis: the two percentage cards and the lead-time card hold the ratio and the mean as numbers, not the text with one decimal and the swapped `.`/`,` separators (src/insights.py:56-58). The weight cards keep the weight itself; `fmt_kg`'s text is modelled separately by `Insights.FmtKg`.
- Card subtitles, `make_kpi_card`, the `html.Ul`/`html.Li`/`html.B` elements, `fig_empty`, `go.Figure`, `px.*`, `update_layout`, the `*100` and the `[0, 105]` axis range of the conversion bars, `nbins=30` of the histogram and the trace names: this is presentation over plotting libraries, not data.
- The reversed plotting order `by_os[::-1]` (src/charts.py:81): it only affects drawing. `Charts.TopOs` keeps the descending order that `head(10)` takes from.
- The weekly traces added only when a series is non-empty (src/charts.py:60-63): that is drawing. The series is modelled, and is empty exactly when no row is dated.
- Charts.ReceivedWeekly and Charts.ShippedWeekly: they carry no contract of their own. Each is `Charts.Weekly` applied to (`dt_receb`, total weight) and (`dt_exped`, shipped weight), and their properties are Weekly's.
- Tie order: in `sort_values` for the bottleneck, the OS with most WIP, the per-stage bars and the top-10 ranking, pandas' default sort fixes no tie-break. The model picks the first key in row order, or keeps the group order, and the contracts promise only "some maximal group" and "in order of weight".
- Data.Renamed: requires at most one alias spelling per canonical field among the headers (`RenameInjective`). Two spellings of the same field would make pandas create duplicate columns, which the model does not represent.
- Column order of a frame: columns are a set, so the order in which pandas appends columns is not kept. The table's column order is modelled through its fixed list.
- Text.Lower: maps ASCII and Latin-1 capitals only. Other Unicode case mappings of `str.lower` are not modelled.
- Insights.BuildTablePayload: requires every table weight cell to be numeric or missing, because `float(v)` raises on other values. `Insights.PreparedFrameTableReady` proves the condition for any frame of prepared rows, such as the one `Data.PrepareDf` returns. The table is modelled over that prepared frame of cells, not over the filtered `seq<Record>` that `Data.ApplyFilters` returns; the store round trip between them is treated as the identity.
- Insights.DateTextOfDay: states the ISO layout only for years 0 to 9999, the years `strftime` writes in four digits.
- Option records are `Choice(caption, value)`. `caption` stands for the dict key "label", because `label` is a reserved word in Dafny.
