/**
 * Reading and preparing the progress spreadsheet (src/data.py): header
 * normalisation and aliasing, the preparation of every row into a canonical
 * record with its derived fields, and the filter engine every view consumes.
 */
module Data {
  import opened Wrappers
  import opened Text
  import opened Seqs

  // ---------------------------------------------------------------------------
  // Header normalisation: normalize_col
  // ---------------------------------------------------------------------------

  /** Every whitespace character is a plain space and no two whitespace characters are adjacent. */
  predicate Collapsed(s: string) {
    forall i :: 0 <= i < |s| ==> CollapsedAt(s, i)
  }

  /** The character at `i`, when whitespace, is a plain space not followed by whitespace. */
  predicate CollapsedAt(s: string, i: int) {
    0 <= i < |s| && IsSpace(s[i]) ==> s[i] == ' ' && (i + 1 < |s| ==> !IsSpace(s[i + 1]))
  }

  /** The shape every normalised header has. */
  predicate Normalized(s: string) {
    NoEdgeSpace(s) && Collapsed(s)
  }

  /** The characters of `s` that are not whitespace, in order. */
  function NonSpace(s: string): string
    decreases |s|
  {
    if s == [] then [] else (if IsSpace(s[0]) then [] else [s[0]]) + NonSpace(s[1..])
  }

  lemma {:induction false} NonSpaceConcat(a: string, b: string)
    ensures NonSpace(a + b) == NonSpace(a) + NonSpace(b)
    decreases |a|
  {
    if a == [] {
      assert a + b == b;
    } else {
      assert (a + b)[0] == a[0] && (a + b)[1..] == a[1..] + b;
      NonSpaceConcat(a[1..], b);
    }
  }

  lemma {:induction false} NonSpaceOfSpaces(s: string)
    requires AllSpace(s)
    ensures NonSpace(s) == []
    decreases |s|
  {
    if s != [] {
      NonSpaceOfSpaces(s[1..]);
    }
  }

  lemma NonSpaceTrimStart(s: string)
    ensures NonSpace(TrimStart(s)) == NonSpace(s)
  {
    var t := TrimStart(s);
    var k := |s| - |t|;
    assert s == s[..k] + t;
    NonSpaceConcat(s[..k], t);
    NonSpaceOfSpaces(s[..k]);
  }

  /** Putting one character in front of a collapsed string keeps it collapsed when it fits. */
  lemma ConsCollapsed(c: char, r: string)
    requires Collapsed(r)
    requires IsSpace(c) ==> c == ' ' && (r == [] || !IsSpace(r[0]))
    ensures Collapsed([c] + r)
  {
    var t := [c] + r;
    forall i | 0 <= i < |t|
      ensures CollapsedAt(t, i)
    {
      if i > 0 {
        assert CollapsedAt(r, i - 1);
        assert t[i] == r[i - 1];
        assert i + 1 < |t| ==> t[i + 1] == r[i];
      } else if r != [] {
        assert t[1] == r[0];
      }
    }
  }

  /** `re.sub(r"\s+", " ", s)`: every run of whitespace becomes one space. */
  function CollapseSpaces(s: string): (r: string)
    ensures Collapsed(r)
    ensures s != [] && IsSpace(s[0]) ==> r != [] && r[0] == ' '
    ensures s != [] && !IsSpace(s[0]) ==> r != [] && r[0] == s[0]
    decreases |s|
  {
    if s == [] then []
    else if IsSpace(s[0]) then
      var t := TrimStart(s);
      assert |t| < |s|;
      var rest := CollapseSpaces(t);
      ConsCollapsed(' ', rest);
      [' '] + rest
    else
      var rest := CollapseSpaces(s[1..]);
      ConsCollapsed(s[0], rest);
      [s[0]] + rest
  }

  /** Collapsing keeps a last character that is not whitespace. */
  lemma {:induction false} CollapseSpacesLast(s: string)
    ensures var r := CollapseSpaces(s); s != [] && !IsSpace(s[|s| - 1]) ==> r != [] && r[|r| - 1] == s[|s| - 1]
    decreases |s|
  {
    if s == [] || IsSpace(s[|s| - 1]) {
    } else if IsSpace(s[0]) {
      var t := TrimStart(s);
      assert t != [] && t[|t| - 1] == s[|s| - 1];
      CollapseSpacesLast(t);
    } else if |s| > 1 {
      CollapseSpacesLast(s[1..]);
    }
  }

  /** Collapsing changes whitespace only. */
  lemma {:induction false} CollapseSpacesNonSpace(s: string)
    ensures NonSpace(CollapseSpaces(s)) == NonSpace(s)
    decreases |s|
  {
    if s != [] {
      var r := CollapseSpaces(s);
      if IsSpace(s[0]) {
        var t := TrimStart(s);
        CollapseSpacesNonSpace(t);
        NonSpaceTrimStart(s);
        assert r[1..] == CollapseSpaces(t);
      } else {
        CollapseSpacesNonSpace(s[1..]);
        assert r[1..] == CollapseSpaces(s[1..]);
      }
    }
  }

  /** `.replace("\n", " ")` */
  function ReplaceNewlines(s: string): (r: string)
    ensures |r| == |s| && forall i :: 0 <= i < |s| ==> r[i] == (if s[i] == '\n' then ' ' else s[i])
  {
    seq(|s|, i requires 0 <= i < |s| => if s[i] == '\n' then ' ' else s[i])
  }

  lemma {:induction false} NonSpaceReplaceNewlines(s: string)
    ensures NonSpace(ReplaceNewlines(s)) == NonSpace(s)
    decreases |s|
  {
    if s != [] {
      assert ReplaceNewlines(s)[1..] == ReplaceNewlines(s[1..]);
      NonSpaceReplaceNewlines(s[1..]);
    }
  }

  lemma NonSpaceStrip(s: string)
    ensures NonSpace(Strip(s)) == NonSpace(s)
  {
    NonSpaceTrimStart(s);
    NonSpaceTrimEnd(TrimStart(s));
  }

  lemma NonSpaceTrimEnd(s: string)
    ensures NonSpace(TrimEnd(s)) == NonSpace(s)
  {
    var r := TrimEnd(s);
    assert s == r + s[|r|..];
    NonSpaceConcat(r, s[|r|..]);
    NonSpaceOfSpaces(s[|r|..]);
  }

  /**
   * normalize_col: strip, turn newlines into spaces, collapse whitespace runs.
   * The result is `" ".join(c.split())`: the header's words, one space apart.
   * It has the normalised shape and the same non-whitespace characters.
   */
  function NormalizeCol(c: string): (r: string)
    ensures r == JoinSpaced(Words(c))
    ensures Normalized(r)
    ensures NonSpace(r) == NonSpace(c)
  {
    var s := Strip(c);
    var t := ReplaceNewlines(s);
    NonSpaceStrip(c);
    NonSpaceReplaceNewlines(s);
    CollapseSpacesNonSpace(t);
    ReplaceNewlinesEdges(s);
    NormalizedCollapse(t);
    WordsStrip(c);
    WordsReplaceNewlines(s);
    CollapseSpacesWords(t);
    CollapseSpaces(t)
  }

  /** Newlines and spaces are both whitespace, so swapping one for the other changes no word. */
  lemma {:induction false} WordsReplaceNewlines(s: string)
    ensures Words(ReplaceNewlines(s)) == Words(s)
    decreases |s|
  {
    if s != [] {
      var t := ReplaceNewlines(s);
      assert t[1..] == ReplaceNewlines(s[1..]);
      WordsReplaceNewlines(s[1..]);
    }
  }

  /** One space when `s` starts with whitespace. */
  function LeadSpace(s: string): string {
    if s != [] && IsSpace(s[0]) then " " else ""
  }

  /** `s` ends with whitespace that follows some word. */
  predicate SpaceAfterWord(s: string) {
    s != [] && IsSpace(s[|s| - 1]) && !AllSpace(s)
  }

  /** One space when `s` ends with whitespace that follows some word. */
  function TrailSpace(s: string): string {
    if SpaceAfterWord(s) then " " else ""
  }

  /** The words of `s` one space apart, with a space in front and behind where `s` has edge whitespace. */
  function SpacedWords(s: string): string {
    LeadSpace(s) + JoinSpaced(Words(s)) + TrailSpace(s)
  }

  /** `re.sub(r"\s+", " ", s)` keeps the words of `s` and puts exactly one space wherever `s` had whitespace. */
  lemma {:induction false} CollapseSpacesWords(s: string)
    ensures CollapseSpaces(s) == SpacedWords(s)
    decreases |s|
  {
    if s == [] {
    } else if IsSpace(s[0]) {
      CollapseSpacesWords(TrimStart(s));
      CollapseLeadingSpace(s, TrimStart(s));
    } else {
      CollapseSpacesWords(s[1..]);
      CollapseLeadingWord(s, s[1..]);
    }
  }

  lemma CollapseLeadingSpace(s: string, t: string)
    requires s != [] && IsSpace(s[0]) && t == TrimStart(s)
    requires CollapseSpaces(t) == SpacedWords(t)
    ensures CollapseSpaces(s) == SpacedWords(s)
  {
    WordsTrimStart(s);
    SpaceTrailTrimStart(s, t);
    var j, e := JoinSpaced(Words(s)), TrailSpace(s);
    assert LeadSpace(t) == "" && LeadSpace(s) == " ";
    assert CollapseSpaces(s) == " " + CollapseSpaces(t);
    Prefixed(" ", j, e, CollapseSpaces(t), SpacedWords(s));
  }

  /** Cutting leading whitespace keeps the trailing piece. */
  lemma SpaceTrailTrimStart(s: string, t: string)
    requires t == TrimStart(s)
    ensures TrailSpace(t) == TrailSpace(s)
  {
    assert SpaceAfterWord(t) == SpaceAfterWord(s) by {
      var k := |s| - |t|;
      if t != [] {
        assert t[|t| - 1] == s[|s| - 1];
        assert !IsSpace(s[k]) && !IsSpace(t[0]);
      } else {
        assert s == s[..k];
      }
    }
  }

  lemma CollapseLeadingWord(s: string, u: string)
    requires s != [] && !IsSpace(s[0]) && u == s[1..]
    requires CollapseSpaces(u) == SpacedWords(u)
    ensures CollapseSpaces(s) == SpacedWords(s)
  {
    var w := Words(u);
    assert CollapseSpaces(s) == [s[0]] + CollapseSpaces(u);
    assert LeadSpace(s) == "";
    if u == [] {
      assert Words(s) == [[s[0]]];
    } else if !IsSpace(u[0]) {
      WordTrail(s, u);
      assert Words(s) == [[s[0]] + w[0]] + w[1..];
      JoinSpacedCons(s[0], w);
      assert LeadSpace(u) == "";
    } else {
      WordTrail(s, u);
      assert Words(s) == [[s[0]]] + w;
      WordThenSpaces(s, u);
    }
  }

  /** A word in front of `u` keeps the trailing piece of a `u` that has a word of its own. */
  lemma WordTrail(s: string, u: string)
    requires s != [] && !IsSpace(s[0]) && u == s[1..] && u != []
    ensures SpaceAfterWord(s) == IsSpace(u[|u| - 1])
  {
    assert u[|u| - 1] == s[|s| - 1];
    assert !AllSpace(s) by { assert !IsSpace(s[0]); }
  }

  /** A one-character word followed by whitespace-led `u`. */
  lemma WordThenSpaces(s: string, u: string)
    requires s != [] && !IsSpace(s[0]) && u == s[1..] && u != [] && IsSpace(u[0])
    requires Words(s) == [[s[0]]] + Words(u)
    requires SpaceAfterWord(s) == IsSpace(u[|u| - 1])
    ensures [s[0]] + SpacedWords(u) == SpacedWords(s)
  {
    if Words(u) == [] {
      WordThenOnlySpaces(s, u);
    } else {
      WordThenMoreWords(s, u);
    }
  }

  lemma WordThenOnlySpaces(s: string, u: string)
    requires s != [] && !IsSpace(s[0]) && u == s[1..] && u != [] && IsSpace(u[0])
    requires Words(s) == [[s[0]]] && Words(u) == []
    requires SpaceAfterWord(s) == IsSpace(u[|u| - 1])
    ensures [s[0]] + SpacedWords(u) == SpacedWords(s)
  {
    assert !SpaceAfterWord(u) && SpaceAfterWord(s);
    assert SpacedWords(u) == " ";
    assert SpacedWords(s) == [s[0]] + " ";
  }

  lemma WordThenMoreWords(s: string, u: string)
    requires s != [] && !IsSpace(s[0]) && u == s[1..] && u != [] && IsSpace(u[0])
    requires Words(s) == [[s[0]]] + Words(u) && Words(u) != []
    requires SpaceAfterWord(s) == IsSpace(u[|u| - 1])
    ensures [s[0]] + SpacedWords(u) == SpacedWords(s)
  {
    var ws := Words(u);
    var j, t := JoinSpaced(ws), TrailSpace(s);
    JoinSpacedFront([s[0]], ws);
    SpaceAfterWordTail(s, u);
    Regrouped([s[0]], " ", j, t, SpacedWords(u), SpacedWords(s));
  }

  /** String regrouping, kept apart from the recursive definitions so it stays cheap. */
  lemma Prefixed(a: string, j: string, e: string, x: string, y: string)
    requires x == "" + j + e && y == a + j + e
    ensures a + x == y
  {
  }

  /** String regrouping, kept apart from the recursive definitions so it stays cheap. */
  lemma Regrouped(a: string, b: string, c: string, d: string, x: string, y: string)
    requires x == b + c + d && y == "" + (a + b + c) + d
    ensures a + x == y
  {
  }

  /** Whitespace at the end of `u` follows a word in `u` exactly when it does in `s`. */
  lemma SpaceAfterWordTail(s: string, u: string)
    requires s != [] && u == s[1..] && u != [] && !AllSpace(u)
    ensures SpaceAfterWord(u) == SpaceAfterWord(s)
  {
    assert u[|u| - 1] == s[|s| - 1];
    var k :| 0 <= k < |u| && !IsSpace(u[k]);
    assert s[k + 1] == u[k];
  }

  /** Replacing newlines by spaces creates no whitespace at the ends of a string that had none. */
  lemma ReplaceNewlinesEdges(s: string)
    requires NoEdgeSpace(s)
    ensures NoEdgeSpace(ReplaceNewlines(s))
  {
  }

  /** Collapsing a string with no whitespace at its ends gives a normalised string. */
  lemma NormalizedCollapse(t: string)
    requires NoEdgeSpace(t)
    ensures Normalized(CollapseSpaces(t))
  {
    CollapseSpacesLast(t);
  }

  lemma {:induction false} CollapseCollapsed(s: string)
    requires Collapsed(s)
    ensures CollapseSpaces(s) == s
    decreases |s|
  {
    if s != [] {
      var u := s[1..];
      CollapsedTail(s);
      CollapseCollapsed(u);
      if IsSpace(s[0]) {
        assert TrimStart(u) == u;
        assert TrimStart(s) == u;
      }
      assert s == [s[0]] + u;
    }
  }

  /** The tail of a collapsed string is collapsed, and whitespace at its head is one space before a non-space. */
  lemma CollapsedTail(s: string)
    requires Collapsed(s) && s != []
    ensures Collapsed(s[1..])
    ensures IsSpace(s[0]) ==> s[0] == ' ' && (|s| == 1 || !IsSpace(s[1]))
  {
    var u := s[1..];
    forall i | 0 <= i < |u|
      ensures CollapsedAt(u, i)
    {
      assert CollapsedAt(s, i + 1);
      assert u[i] == s[i + 1];
      assert i + 1 < |u| ==> u[i + 1] == s[i + 2];
    }
    assert CollapsedAt(s, 0);
  }

  /** A collapsed string holds no newline, so replacing newlines leaves it as it is. */
  lemma CollapsedNoNewline(s: string)
    requires Collapsed(s)
    ensures ReplaceNewlines(s) == s
  {
    forall i | 0 <= i < |s|
      ensures s[i] != '\n'
    {
      assert CollapsedAt(s, i);
    }
  }

  /** A header already in normalised shape is its own normalisation. */
  lemma NormalizeColFixpoint(s: string)
    requires Normalized(s)
    ensures NormalizeCol(s) == s
  {
    StripNoEdge(s);
    CollapsedNoNewline(s);
    CollapseCollapsed(s);
  }

  /** normalize_col is idempotent. */
  lemma NormalizeColIdempotent(c: string)
    ensures NormalizeCol(NormalizeCol(c)) == NormalizeCol(c)
  {
    NormalizeColFixpoint(NormalizeCol(c));
  }


  // ---------------------------------------------------------------------------
  // Canonical columns, header aliases: col_map and the rename in prepare_df
  // ---------------------------------------------------------------------------

  /** The date columns, converted by `safe_to_datetime`. */
  datatype DateField = DtReceb | DtEntrega | DtExped {
    function Name(): string {
      match this
      case DtReceb => "dt_receb"
      case DtEntrega => "dt_entrega"
      case DtExped => "dt_exped"
    }
  }

  /** The weight columns, in kg, converted by `safe_to_numeric(...).fillna(0.0)`. */
  datatype WeightField = PesoTotalKg | PesoExpedKg | PrepKg | MontKg | SoldKg | AcabKg | PintKg {
    function Name(): string {
      match this
      case PesoTotalKg => "peso_total_kg"
      case PesoExpedKg => "peso_exped_kg"
      case PrepKg => "prep_kg"
      case MontKg => "mont_kg"
      case SoldKg => "sold_kg"
      case AcabKg => "acab_kg"
      case PintKg => "pint_kg"
    }
  }

  /** The descriptive columns, turned into text by `astype("string").fillna("")`. */
  datatype TextField = OsCliente | Tag | SituacaoDesenho | DesenhoPai | Descricao {
    function Name(): string {
      match this
      case OsCliente => "os_cliente"
      case Tag => "tag"
      case SituacaoDesenho => "situacao_desenho"
      case DesenhoPai => "desenho_pai"
      case Descricao => "descricao"
    }
  }

  /** The columns prepare_df computes. */
  datatype DerivedField = ProduzidoKg | EtapaAtual | SaldoAProduzirKg | SaldoAExpedirKg | LeadtimeDias | Atrasado {
    function Name(): string {
      match this
      case ProduzidoKg => "produzido_kg"
      case EtapaAtual => "etapa_atual"
      case SaldoAProduzirKg => "saldo_a_produzir_kg"
      case SaldoAExpedirKg => "saldo_a_expedir_kg"
      case LeadtimeDias => "leadtime_dias"
      case Atrasado => "atrasado"
    }
  }

  /**
   * A column of the frame after renaming: one of the canonical columns, grouped by
   * what prepare_df does to them (`cliente` is required but kept as read), or a
   * header that names none of them.
   */
  datatype Col =
    | DateCol(date: DateField)
    | WeightCol(weight: WeightField)
    | TextCol(text: TextField)
    | DerivedCol(derived: DerivedField)
    | ClienteCol
    | Other(header: string)
  {
    function Name(): string {
      match this
      case DateCol(d) => d.Name()
      case WeightCol(w) => w.Name()
      case TextCol(t) => t.Name()
      case DerivedCol(v) => v.Name()
      case ClienteCol => "cliente"
      case Other(h) => h
    }
  }

  /** Every canonical column: the required ones in the order the sheet lists them, then the derived ones. */
  const CanonicalCols: seq<Col> := [
    DateCol(DtReceb), DateCol(DtEntrega), DateCol(DtExped),
    WeightCol(PesoTotalKg), WeightCol(PesoExpedKg),
    WeightCol(PrepKg), WeightCol(MontKg), WeightCol(SoldKg), WeightCol(AcabKg), WeightCol(PintKg),
    ClienteCol, TextCol(OsCliente), TextCol(Tag), TextCol(SituacaoDesenho), TextCol(DesenhoPai), TextCol(Descricao),
    DerivedCol(ProduzidoKg), DerivedCol(EtapaAtual), DerivedCol(SaldoAProduzirKg),
    DerivedCol(SaldoAExpedirKg), DerivedCol(LeadtimeDias), DerivedCol(Atrasado)]

  lemma CanonicalColsComplete(c: Col)
    ensures !c.Other? <==> c in CanonicalCols
  {
    match c {
      case DateCol(d) => DateColCanonical(d);
      case WeightCol(w) => WeightColCanonical(w);
      case TextCol(t) => TextColCanonical(t);
      case DerivedCol(v) => DerivedColCanonical(v);
      case ClienteCol => assert CanonicalCols[10] == c;
      case Other(n) => OtherNotCanonical(n);
    }
  }

  lemma OtherNotCanonical(n: string)
    ensures Other(n) !in CanonicalCols
  {
  }

  lemma DateColCanonical(d: DateField)
    ensures DateCol(d) in CanonicalCols
  {
    match d {
      case DtReceb =>
      case DtEntrega =>
      case DtExped =>
    }
  }

  lemma WeightColCanonical(w: WeightField)
    ensures WeightCol(w) in CanonicalCols
  {
    match w {
      case PesoTotalKg =>
      case PesoExpedKg =>
      case PrepKg =>
      case MontKg =>
      case SoldKg =>
      case AcabKg =>
      case PintKg =>
    }
  }

  lemma TextColCanonical(t: TextField)
    ensures TextCol(t) in CanonicalCols
  {
    match t {
      case OsCliente =>
      case Tag =>
      case SituacaoDesenho =>
      case DesenhoPai =>
      case Descricao =>
    }
  }

  lemma DerivedColCanonical(v: DerivedField)
    ensures DerivedCol(v) in CanonicalCols
  {
    match v {
      case ProduzidoKg =>
      case EtapaAtual =>
      case SaldoAProduzirKg =>
      case SaldoAExpedirKg =>
      case LeadtimeDias =>
      case Atrasado =>
    }
  }

  /** Two canonical columns with the same name are the same column. */
  lemma CanonicalNameInjective(a: Col, b: Col)
    requires !a.Other? && !b.Other?
    ensures a.Name() == b.Name() ==> a == b
  {
    match a
    case DateCol(d) => DateNameUnique(d, b);
    case WeightCol(w) => WeightNameUnique(w, b);
    case TextCol(t) => TextNameUnique(t, b);
    case DerivedCol(v) => DerivedNameUnique(v, b);
    case ClienteCol =>
  }

  lemma DateNameUnique(d: DateField, b: Col)
    requires !b.Other?
    ensures DateCol(d).Name() == b.Name() ==> DateCol(d) == b
  {
  }

  lemma WeightNameUnique(w: WeightField, b: Col)
    requires !b.Other?
    ensures WeightCol(w).Name() == b.Name() ==> WeightCol(w) == b
  {
  }

  lemma TextNameUnique(t: TextField, b: Col)
    requires !b.Other?
    ensures TextCol(t).Name() == b.Name() ==> TextCol(t) == b
  {
  }

  lemma DerivedNameUnique(v: DerivedField, b: Col)
    requires !b.Other?
    ensures DerivedCol(v).Name() == b.Name() ==> DerivedCol(v) == b
  {
  }

  /** The column among `cs` named `n`, if there is one. */
  function FindCol(n: string, cs: seq<Col>): (r: Option<Col>)
    ensures r.Some? ==> r.value in cs && r.value.Name() == n
    ensures r.None? ==> forall c :: c in cs ==> c.Name() != n
  {
    if cs == [] then None
    else if cs[0].Name() == n then Some(cs[0])
    else FindCol(n, cs[1..])
  }

  /** The column a name denotes: the canonical column of that name, or a column of its own. */
  function ColNamed(n: string): (c: Col)
    ensures c.Name() == n
    ensures c.Other? <==> forall k: Col :: !k.Other? ==> k.Name() != n
  {
    var found := FindCol(n, CanonicalCols);
    FindCanonical(n);
    if found.Some? then found.value else Other(n)
  }

  /** The search among the canonical columns finds one exactly when one has that name. */
  lemma FindCanonical(n: string)
    ensures var found := FindCol(n, CanonicalCols);
      && (found.Some? ==> !found.value.Other? && found.value.Name() == n)
      && (found.None? <==> forall k: Col :: !k.Other? ==> k.Name() != n)
  {
    var found := FindCol(n, CanonicalCols);
    if found.Some? {
      CanonicalColsComplete(found.value);
    } else {
      NoCanonicalNamed(n);
    }
  }

  lemma NoCanonicalNamed(n: string)
    requires FindCol(n, CanonicalCols).None?
    ensures forall k: Col :: !k.Other? ==> k.Name() != n
  {
    forall k: Col | !k.Other?
      ensures k.Name() != n
    {
      CanonicalColsComplete(k);
    }
  }

  /**
   * `col_map`: the spreadsheet's (normalised) headers and the canonical column each
   * one becomes; `None` for a header the table does not list.
   */
  function ColAlias(h: string): Option<Col> {
    if h == "DATA RECEBIMENTO DA GUIA" then Some(DateCol(DtReceb))
    else if h == "DATA DE ENTREGA" then Some(DateCol(DtEntrega))
    else if h == "DATA EXPEDIÇÃO" then Some(DateCol(DtExped))
    else if h == "PESO TOTAL ( KG)" then Some(WeightCol(PesoTotalKg))
    else if h == "PESO TOTAL ( KG )" then Some(WeightCol(PesoTotalKg))
    else if h == "PESO TOTAL (KG)" then Some(WeightCol(PesoTotalKg))
    else if h == "PESO EXPEDIDO (KG)" then Some(WeightCol(PesoExpedKg))
    else if h == "CLIENTE" then Some(ClienteCol)
    else if h == "OS_CLIENTE" then Some(TextCol(OsCliente))
    else if h == "TAG" then Some(TextCol(Tag))
    else if h == "SITUAÇÃO DO DESENHO" then Some(TextCol(SituacaoDesenho))
    else if h == "N° DESENHO PAI" then Some(TextCol(DesenhoPai))
    else if h == "DESCRIÇÃO DO DESENHO" then Some(TextCol(Descricao))
    else if h == "DESENHOS PREPARADOS (KG)" then Some(WeightCol(PrepKg))
    else if h == "DESENHOS MONTADOS (KG)" then Some(WeightCol(MontKg))
    else if h == "DESENHOS SOLDADOS (KG)" then Some(WeightCol(SoldKg))
    else if h == "DESENHOS ACABADOS (KG)" then Some(WeightCol(AcabKg))
    else if h == "DESENHOS PITADOS (KG)" then Some(WeightCol(PintKg))
    else if h == "DESENHOS PINTADOS (KG)" then Some(WeightCol(PintKg))
    else None
  }

  /** The column a header becomes after `df.rename(columns=rename)`. */
  function RenameHeader(h: string): Col {
    match ColAlias(h)
    case Some(c) => c
    case None => ColNamed(h)
  }

  /** `col_map` sends exactly the three spellings of the total-weight header to `peso_total_kg`. */
  lemma TotalWeightHeaders(h: string)
    ensures ColAlias(h) == Some(WeightCol(PesoTotalKg)) ==> h == "PESO TOTAL ( KG)" || h == "PESO TOTAL ( KG )" || h == "PESO TOTAL (KG)"
    ensures h == "PESO TOTAL ( KG)" || h == "PESO TOTAL ( KG )" ==> ColAlias(h) == Some(WeightCol(PesoTotalKg))
  {
  }

  lemma TotalWeightHeaderLast()
    ensures ColAlias("PESO TOTAL (KG)") == Some(WeightCol(PesoTotalKg)) && ColAlias("peso_total_kg").None?
  {
  }

  /** The three spellings of the total-weight header, and besides them only the canonical name itself, become `peso_total_kg`. */
  lemma TotalWeightAliases(h: string)
    ensures RenameHeader(h) == WeightCol(PesoTotalKg) <==>
      h == "PESO TOTAL ( KG)" || h == "PESO TOTAL ( KG )" || h == "PESO TOTAL (KG)" || h == "peso_total_kg"
  {
    var total := WeightCol(PesoTotalKg);
    assert total.Name() == "peso_total_kg";
    TotalWeightHeaders(h);
    TotalWeightHeaderLast();
    if ColAlias(h).None? {
      var k := ColNamed(h);
      if !k.Other? {
        CanonicalNameInjective(k, total);
      }
    }
  }

  /** `col_map` sends the misspelt "PITADOS" header and the correct one, and nothing else, to `pint_kg`. */
  lemma PaintedHeaders(h: string)
    ensures ColAlias(h) == Some(WeightCol(PintKg)) ==> h == "DESENHOS PITADOS (KG)" || h == "DESENHOS PINTADOS (KG)"
  {
  }

  lemma PaintedHeaderValues()
    ensures ColAlias("DESENHOS PITADOS (KG)") == Some(WeightCol(PintKg))
    ensures ColAlias("DESENHOS PINTADOS (KG)") == Some(WeightCol(PintKg))
  {
  }

  lemma PaintedNameNotAliased()
    ensures ColAlias("pint_kg").None?
  {
  }

  /** The misspelt "PITADOS" header and the correct one, and besides them only the canonical name itself, become `pint_kg`. */
  lemma PaintedAliases(h: string)
    ensures RenameHeader(h) == WeightCol(PintKg) <==>
      h == "DESENHOS PITADOS (KG)" || h == "DESENHOS PINTADOS (KG)" || h == "pint_kg"
  {
    var pint := WeightCol(PintKg);
    assert pint.Name() == "pint_kg";
    PaintedHeaders(h);
    PaintedHeaderValues();
    PaintedNameNotAliased();
    if ColAlias(h).None? {
      var k := ColNamed(h);
      if !k.Other? {
        CanonicalNameInjective(k, pint);
      }
    }
  }

  /** A header outside the alias table keeps its name. */
  lemma RenameKeepsUnknown(h: string)
    ensures ColAlias(h).None? ==> RenameHeader(h).Name() == h
  {
  }

  // ---------------------------------------------------------------------------
  // The sheet as a frame
  // ---------------------------------------------------------------------------

  /**
   * One cell of the sheet: missing (`pd.NA`/`NaT`/`NaN`), a text, a number, a whole
   * number, a date (day number, see module Dates), or a boolean.
   */
  datatype Cell = NA | Str(s: string) | Num(x: real) | Int(n: int) | Day(d: int) | Flag(b: bool)

  /**
   * A frame: its column keys, and each row as the cells it holds under those keys.
   * The order of the columns is not modelled: nothing downstream reads it.
   */
  datatype Frame<K> = Frame(columns: set<K>, rows: seq<map<K, Cell>>)

  /** Every row holds a cell for every column and for nothing else. */
  predicate WellFormed<K>(f: Frame<K>) {
    forall i :: 0 <= i < |f.rows| ==> f.rows[i].Keys == f.columns
  }

  /** The cell of a row under a column; a column the row does not hold reads as missing. */
  function CellOf<K>(r: map<K, Cell>, name: K): Cell {
    if name in r then r[name] else NA
  }

  /** The column `pd.NA` broadcasts to: every cell missing. */
  function Missing(height: nat): (col: seq<Cell>)
    ensures |col| == height && forall i :: 0 <= i < height ==> col[i] == NA
  {
    seq(height, _ => NA)
  }

  /** `df[name] = col`: overwrites the column when the frame has it, adds it otherwise; nothing else changes. */
  method Assign<K>(f: Frame<K>, name: K, col: seq<Cell>) returns (r: Frame<K>)
    requires |col| == |f.rows|
    ensures r.columns == f.columns + {name} && |r.rows| == |f.rows|
    ensures forall i :: 0 <= i < |f.rows| ==> r.rows[i] == f.rows[i][name := col[i]]
    ensures WellFormed(f) ==> WellFormed(r)
  {
    r := Frame(f.columns + {name}, seq(|f.rows|, i requires 0 <= i < |f.rows| => f.rows[i][name := col[i]]));
  }

  /** No two headers of the sheet are renamed to the same column. */
  predicate RenameInjective(headers: set<string>) {
    forall a, b :: a in headers && b in headers && RenameHeader(a) == RenameHeader(b) ==> a == b
  }

  /** One row under the renamed headers. */
  function RenameRow(r: map<string, Cell>): (s: map<Col, Cell>)
    requires RenameInjective(r.Keys)
    ensures forall n :: n in s <==> exists c :: c in r && RenameHeader(c) == n
    ensures forall c :: c in r ==> CellOf(s, RenameHeader(c)) == r[c]
  {
    map c | c in r :: RenameHeader(c) := r[c]
  }

  /** `df.rename(columns=rename)` with the alias table: headers change, cells stay. */
  function Renamed(f: Frame<string>): (r: Frame<Col>)
    requires WellFormed(f) && RenameInjective(f.columns)
    ensures |r.rows| == |f.rows|
    ensures forall n :: n in r.columns <==> exists c :: c in f.columns && RenameHeader(c) == n
    ensures forall i :: 0 <= i < |f.rows| ==> r.rows[i] == RenameRow(f.rows[i])
    ensures WellFormed(r)
  {
    Frame(set c | c in f.columns :: RenameHeader(c), seq(|f.rows|, i requires 0 <= i < |f.rows| => RenameRow(f.rows[i])))
  }

  // ---------------------------------------------------------------------------
  // Cell coercions
  // ---------------------------------------------------------------------------

  /**
   * What `pd.to_datetime(errors="coerce")`, `pd.to_numeric(errors="coerce")` and
   * `astype("string")` make of a cell whose type they have to convert (a date
   * written as text, a number written as text, a number shown as text).
   * Their grammars are not part of this model.
   */
  datatype Parsers = Parsers(date: Cell -> Option<int>, number: Cell -> Option<real>, text: Cell -> string)

  /** `safe_to_datetime` on one cell: missing stays missing, a date stays itself. */
  function ToDate(p: Parsers, c: Cell): Option<int> {
    match c
    case NA => None
    case Day(d) => Some(d)
    case _ => p.date(c)
  }

  /** `safe_to_numeric` on one cell. */
  function ToNumber(p: Parsers, c: Cell): Option<real> {
    match c
    case NA => None
    case Num(x) => Some(x)
    case Int(n) => Some(n as real)
    case _ => p.number(c)
  }

  /** `safe_to_numeric(...).fillna(0.0)`: missing or unparseable weights count as zero. */
  function ToWeight(p: Parsers, c: Cell): (w: real)
    ensures c.NA? ==> w == 0.0
    ensures c.Num? ==> w == c.x
    ensures ToNumber(p, c).None? ==> w == 0.0
  {
    ToNumber(p, c).GetOr(0.0)
  }

  /** `astype("string").fillna("")`. */
  function ToText(p: Parsers, c: Cell): string {
    match c
    case NA => ""
    case Str(s) => s
    case _ => p.text(c)
  }

  /** The cell a datetime column holds for a date that may be missing (`NaT`). */
  function DateCell(d: Option<int>): Cell {
    match d
    case None => NA
    case Some(v) => Day(v)
  }

  lemma DateCellRoundTrip(p: Parsers, d: Option<int>)
    ensures ToDate(p, DateCell(d)) == d
  {
  }

  /** The number in a numeric cell. */
  function NumOf(c: Cell): real {
    if c.Num? then c.x else 0.0
  }

  /** The whole number in an integer column, missing when the cell is. */
  function IntOf(c: Cell): Option<int> {
    if c.Int? then Some(c.n) else None
  }

  function IntCell(v: Option<int>): Cell {
    match v
    case None => NA
    case Some(n) => Int(n)
  }

  function FlagOf(c: Cell): bool {
    c.Flag? && c.b
  }

  // ---------------------------------------------------------------------------
  // Production stages and the derived fields
  // ---------------------------------------------------------------------------

  /** The stages a drawing passes through; `etapa_atual` is one of them. */
  datatype Stage = Expedido | Pintura | Acabamento | Solda | Montagem | Preparacao | NaoIniciado {

    /** The label the dashboard shows and stores. */
    function Label(): string {
      match this
      case Expedido => "Expedido"
      case Pintura => "Pintura (pronto p/ expedir)"
      case Acabamento => "Acabamento"
      case Solda => "Solda"
      case Montagem => "Montagem"
      case Preparacao => "Preparação"
      case NaoIniciado => "Não iniciado"
    }

    /** One of the five shop-floor stages that have a weight column of their own. */
    predicate IsWorking() {
      !Expedido? && !NaoIniciado?
    }

    /** The order of the shop-floor stages: preparation first, painting last. */
    function Rank(): nat
      requires IsWorking()
    {
      match this
      case Preparacao => 1
      case Montagem => 2
      case Solda => 3
      case Acabamento => 4
      case Pintura => 5
    }
  }

  lemma LabelInjective(a: Stage, b: Stage)
    ensures a.Label() == b.Label() ==> a == b
  {
  }

  /** The five per-stage weights of one drawing, in kg. */
  datatype Progress = Progress(prep: real, mont: real, sold: real, acab: real, pint: real)

  function StageWeight(s: Stage, w: Progress): real
    requires s.IsWorking()
  {
    match s
    case Preparacao => w.prep
    case Montagem => w.mont
    case Solda => w.sold
    case Acabamento => w.acab
    case Pintura => w.pint
  }

  /**
   * stage_of_row: the first of shipped, painted, finished, welded, assembled,
   * prepared whose weight is positive, otherwise not started.
   */
  function StageOfRow(exped: real, w: Progress): Stage {
    if exped > 0.0 then Expedido
    else if w.pint > 0.0 then Pintura
    else if w.acab > 0.0 then Acabamento
    else if w.sold > 0.0 then Solda
    else if w.mont > 0.0 then Montagem
    else if w.prep > 0.0 then Preparacao
    else NaoIniciado
  }

  /**
   * The classification is first-match-wins: shipped exactly when something was
   * shipped; not started exactly when no weight is positive; otherwise a stage
   * whose weight is positive while every later stage's weight is not.
   */
  lemma StageOfRowFirstMatch(exped: real, w: Progress)
    ensures var s := StageOfRow(exped, w);
      && (s == Expedido <==> exped > 0.0)
      && (s == NaoIniciado <==> exped <= 0.0 && w.pint <= 0.0 && w.acab <= 0.0 && w.sold <= 0.0 && w.mont <= 0.0 && w.prep <= 0.0)
      && (s.IsWorking() ==>
        && StageWeight(s, w) > 0.0
        && forall t: Stage :: t.IsWorking() && t.Rank() > s.Rank() ==> StageWeight(t, w) <= 0.0)
  {
  }

  /** `df[[pint, acab, sold, mont, prep]].max(axis=1)`: the largest stage weight. */
  function Produced(w: Progress): (m: real)
    ensures m >= w.pint && m >= w.acab && m >= w.sold && m >= w.mont && m >= w.prep
  {
    var a := if w.pint >= w.acab then w.pint else w.acab;
    var b := if a >= w.sold then a else w.sold;
    var c := if b >= w.mont then b else w.mont;
    if c >= w.prep then c else w.prep
  }

  /** The produced weight is one of the stage weights: their maximum, not their sum. */
  lemma ProducedIsMax(w: Progress)
    ensures var m := Produced(w); m == w.pint || m == w.acab || m == w.sold || m == w.mont || m == w.prep
  {
  }

  /** `clip(lower=0.0)`. */
  function Clamp0(x: real): (r: real)
    ensures r >= 0.0 && r >= x
  {
    if x < 0.0 then 0.0 else x
  }

  /** Clipping is the least value at or above both zero and `x`. */
  lemma Clamp0Least(x: real, y: real)
    requires y >= 0.0 && y >= x
    ensures Clamp0(x) <= y
  {
  }

  /** `(dt_exped - dt_receb).dt.days`: missing when either date is. */
  function LeadTime(exped: Option<int>, receb: Option<int>): (r: Option<int>)
    ensures r.None? <==> exped.None? || receb.None?
    ensures r.Some? ==> receb.value + r.value == exped.value
  {
    if exped.Some? && receb.Some? then Some(exped.value - receb.value) else None
  }

  /** `atrasado`: a delivery date before today and nothing shipped. */
  predicate IsLate(entrega: Option<int>, exped: real, today: int) {
    entrega.Some? && entrega.value < today && exped <= 0.0
  }

  // ---------------------------------------------------------------------------
  // Records
  // ---------------------------------------------------------------------------

  /** The cells of the sixteen required fields of one row, as the sheet holds them. */
  datatype RawRow = RawRow(
    dtReceb: Cell, dtEntrega: Cell, dtExped: Cell,
    pesoTotal: Cell, pesoExped: Cell,
    prep: Cell, mont: Cell, sold: Cell, acab: Cell, pint: Cell,
    cliente: Cell, osCliente: Cell, tag: Cell, situacaoDesenho: Cell, desenhoPai: Cell, descricao: Cell)

  /** One prepared row, as the views receive it from the store. */
  datatype Record = Record(
    dtReceb: Option<int>, dtEntrega: Option<int>, dtExped: Option<int>,
    pesoTotalKg: real, pesoExpedKg: real,
    prepKg: real, montKg: real, soldKg: real, acabKg: real, pintKg: real,
    cliente: string, osCliente: string, tag: string, situacaoDesenho: string, desenhoPai: string, descricao: string,
    produzidoKg: real, etapaAtual: string,
    saldoAProduzirKg: real, saldoAExpedirKg: real,
    leadtimeDias: Option<int>, atrasado: bool)
  {
    function Weights(): Progress {
      Progress(prepKg, montKg, soldKg, acabKg, pintKg)
    }
  }

  /** Single columns of a record, as the functions the grouping, filtering and summing helpers take. */
  function ClienteOf(r: Record): string { r.cliente }
  function OsClienteOf(r: Record): string { r.osCliente }
  function TagOf(r: Record): string { r.tag }
  function SituacaoOf(r: Record): string { r.situacaoDesenho }
  function EtapaOf(r: Record): string { r.etapaAtual }
  function DtRecebOf(r: Record): Option<int> { r.dtReceb }
  function DtExpedOf(r: Record): Option<int> { r.dtExped }
  function TotalOf(r: Record): real { r.pesoTotalKg }
  function ProducedOf(r: Record): real { r.produzidoKg }
  function ShippedOf(r: Record): real { r.pesoExpedKg }
  function ToProduceOf(r: Record): real { r.saldoAProduzirKg }
  function ToShipOf(r: Record): real { r.saldoAExpedirKg }

  /** The facts every prepared record satisfies, whatever the sheet held. */
  predicate Prepared(r: Record, today: int) {
    && r.produzidoKg == Produced(r.Weights())
    && r.etapaAtual == StageOfRow(r.pesoExpedKg, r.Weights()).Label()
    && r.saldoAProduzirKg == Clamp0(r.pesoTotalKg - r.produzidoKg)
    && r.saldoAExpedirKg == Clamp0(r.produzidoKg - r.pesoExpedKg)
    && r.leadtimeDias == LeadTime(r.dtExped, r.dtReceb)
    && r.atrasado == IsLate(r.dtEntrega, r.pesoExpedKg, today)
  }

  /** prepare_df on one row: coercions, then the derived fields. */
  function PrepareRow(raw: RawRow, p: Parsers, today: int): (r: Record)
    ensures Prepared(r, today)
    ensures r.dtReceb == ToDate(p, raw.dtReceb) && r.dtEntrega == ToDate(p, raw.dtEntrega) && r.dtExped == ToDate(p, raw.dtExped)
    ensures r.pesoTotalKg == ToWeight(p, raw.pesoTotal) && r.pesoExpedKg == ToWeight(p, raw.pesoExped)
    ensures r.Weights() == Progress(ToWeight(p, raw.prep), ToWeight(p, raw.mont), ToWeight(p, raw.sold), ToWeight(p, raw.acab), ToWeight(p, raw.pint))
    ensures r.cliente == ToText(p, raw.cliente) && r.osCliente == ToText(p, raw.osCliente) && r.tag == ToText(p, raw.tag)
    ensures r.situacaoDesenho == ToText(p, raw.situacaoDesenho) && r.desenhoPai == ToText(p, raw.desenhoPai) && r.descricao == ToText(p, raw.descricao)
  {
    var w := Progress(ToWeight(p, raw.prep), ToWeight(p, raw.mont), ToWeight(p, raw.sold), ToWeight(p, raw.acab), ToWeight(p, raw.pint));
    var total := ToWeight(p, raw.pesoTotal);
    var exped := ToWeight(p, raw.pesoExped);
    var receb, entrega, expedDate := ToDate(p, raw.dtReceb), ToDate(p, raw.dtEntrega), ToDate(p, raw.dtExped);
    var produced := Produced(w);
    Record(
      receb, entrega, expedDate,
      total, exped,
      w.prep, w.mont, w.sold, w.acab, w.pint,
      ToText(p, raw.cliente), ToText(p, raw.osCliente), ToText(p, raw.tag),
      ToText(p, raw.situacaoDesenho), ToText(p, raw.desenhoPai), ToText(p, raw.descricao),
      produced, StageOfRow(exped, w).Label(),
      Clamp0(total - produced), Clamp0(produced - exped),
      LeadTime(expedDate, receb), IsLate(entrega, exped, today))
  }

  /** Backlogs are never negative, even when more was produced than the total or shipped than produced. */
  lemma PreparedBacklogs(r: Record, today: int)
    requires Prepared(r, today)
    ensures r.saldoAProduzirKg >= 0.0 && r.saldoAExpedirKg >= 0.0
    ensures r.saldoAProduzirKg >= r.pesoTotalKg - r.produzidoKg && r.saldoAExpedirKg >= r.produzidoKg - r.pesoExpedKg
  {
  }

  /** A drawing in a shop-floor stage has produced at least that stage's positive weight; one not started has produced nothing. */
  lemma PreparedStageProduced(r: Record, today: int)
    requires Prepared(r, today)
    ensures var s := StageOfRow(r.pesoExpedKg, r.Weights());
      && (s.IsWorking() ==> r.produzidoKg >= StageWeight(s, r.Weights()) > 0.0)
      && (s == NaoIniciado ==> r.produzidoKg <= 0.0)
  {
    var s := StageOfRow(r.pesoExpedKg, r.Weights());
    if s.IsWorking() {
      var w := r.Weights();
      match s
      case Preparacao => assert StageWeight(s, w) == w.prep;
      case Montagem => assert StageWeight(s, w) == w.mont;
      case Solda => assert StageWeight(s, w) == w.sold;
      case Acabamento => assert StageWeight(s, w) == w.acab;
      case Pintura => assert StageWeight(s, w) == w.pint;
    }
  }


  // ---------------------------------------------------------------------------
  // prepare_df
  // ---------------------------------------------------------------------------

  /** The canonical columns every later step reads. */
  const Required: seq<Col> := [
    DateCol(DtReceb), DateCol(DtEntrega), DateCol(DtExped),
    WeightCol(PesoTotalKg), WeightCol(PesoExpedKg),
    WeightCol(PrepKg), WeightCol(MontKg), WeightCol(SoldKg), WeightCol(AcabKg), WeightCol(PintKg), ClienteCol,
    TextCol(OsCliente), TextCol(Tag), TextCol(SituacaoDesenho),
    TextCol(DesenhoPai), TextCol(Descricao)]

  const DateCols: seq<Col> := [DateCol(DtReceb), DateCol(DtEntrega), DateCol(DtExped)]

  /** The weight columns, in the order the conversion loop walks them. */
  const WeightCols: seq<Col> := [
    WeightCol(PesoTotalKg), WeightCol(PesoExpedKg),
    WeightCol(PrepKg), WeightCol(MontKg), WeightCol(SoldKg), WeightCol(AcabKg), WeightCol(PintKg)]

  const DerivedCols: seq<Col> := [
    DerivedCol(ProduzidoKg), DerivedCol(EtapaAtual), DerivedCol(SaldoAProduzirKg),
    DerivedCol(SaldoAExpedirKg), DerivedCol(LeadtimeDias), DerivedCol(Atrasado)]

  /** The descriptive columns, in the order the text loop walks them. */
  const TextCols: seq<Col> := [TextCol(OsCliente), TextCol(Tag), TextCol(SituacaoDesenho), TextCol(DesenhoPai), TextCol(Descricao)]

  /** A row of a frame under the renamed headers. */
  type Row = map<Col, Cell>

  predicate HasColumns(f: Frame<Col>, cols: seq<Col>) {
    forall c :: c in cols ==> c in f.columns
  }

  /** The date in a datetime cell, missing for `NaT`. */
  function DayOf(c: Cell): Option<int> {
    if c.Day? then Some(c.d) else None
  }

  lemma DayOfDateCell(d: Option<int>)
    ensures DayOf(DateCell(d)) == d
  {
  }

  /** The five stage weights of a row whose weight cells are numeric. */
  function WeightsOf(r: Row): Progress {
    Progress(
      NumOf(CellOf(r, WeightCol(PrepKg))), NumOf(CellOf(r, WeightCol(MontKg))), NumOf(CellOf(r, WeightCol(SoldKg))),
      NumOf(CellOf(r, WeightCol(AcabKg))), NumOf(CellOf(r, WeightCol(PintKg))))
  }

  /** The required fields of a row, as the renamed sheet holds them. */
  function RawRowOf(r: Row): RawRow {
    RawRow(
      CellOf(r, DateCol(DtReceb)), CellOf(r, DateCol(DtEntrega)), CellOf(r, DateCol(DtExped)),
      CellOf(r, WeightCol(PesoTotalKg)), CellOf(r, WeightCol(PesoExpedKg)),
      CellOf(r, WeightCol(PrepKg)), CellOf(r, WeightCol(MontKg)), CellOf(r, WeightCol(SoldKg)),
      CellOf(r, WeightCol(AcabKg)), CellOf(r, WeightCol(PintKg)),
      CellOf(r, ClienteCol), CellOf(r, TextCol(OsCliente)), CellOf(r, TextCol(Tag)),
      CellOf(r, TextCol(SituacaoDesenho)), CellOf(r, TextCol(DesenhoPai)), CellOf(r, TextCol(Descricao)))
  }

  /**
   * A prepared row as the views receive it: the store re-parses the date columns
   * and turns every text column, `cliente` included, into a string with missing
   * values blank.
   */
  function RecordOf(r: Row, p: Parsers): Record {
    Record(
      ToDate(p, CellOf(r, DateCol(DtReceb))), ToDate(p, CellOf(r, DateCol(DtEntrega))), ToDate(p, CellOf(r, DateCol(DtExped))),
      NumOf(CellOf(r, WeightCol(PesoTotalKg))), NumOf(CellOf(r, WeightCol(PesoExpedKg))),
      NumOf(CellOf(r, WeightCol(PrepKg))), NumOf(CellOf(r, WeightCol(MontKg))), NumOf(CellOf(r, WeightCol(SoldKg))),
      NumOf(CellOf(r, WeightCol(AcabKg))), NumOf(CellOf(r, WeightCol(PintKg))),
      ToText(p, CellOf(r, ClienteCol)), ToText(p, CellOf(r, TextCol(OsCliente))), ToText(p, CellOf(r, TextCol(Tag))),
      ToText(p, CellOf(r, TextCol(SituacaoDesenho))), ToText(p, CellOf(r, TextCol(DesenhoPai))), ToText(p, CellOf(r, TextCol(Descricao))),
      NumOf(CellOf(r, DerivedCol(ProduzidoKg))), ToText(p, CellOf(r, DerivedCol(EtapaAtual))),
      NumOf(CellOf(r, DerivedCol(SaldoAProduzirKg))), NumOf(CellOf(r, DerivedCol(SaldoAExpedirKg))),
      IntOf(CellOf(r, DerivedCol(LeadtimeDias))), FlagOf(CellOf(r, DerivedCol(Atrasado))))
  }

  /** A column computed row by row, as a vectorised pandas expression computes it. */
  function RowColumn(f: Frame<Col>, g: Row -> Cell): (col: seq<Cell>)
    ensures |col| == |f.rows| && forall i :: 0 <= i < |f.rows| ==> col[i] == g(f.rows[i])
  {
    seq(|f.rows|, i requires 0 <= i < |f.rows| => g(f.rows[i]))
  }

  // Step 1: `if r not in df.columns: df[r] = pd.NA` for every required column.

  /** A required column added to one row, missing, when the row lacks it. */
  function Fill(r: Row, c: Col): Row {
    if c in r then r else r[c := NA]
  }

  function FillAll(r: Row, cs: seq<Col>): Row
    decreases |cs|
  {
    if cs == [] then r else Fill(FillAll(r, cs[..|cs| - 1]), cs[|cs| - 1])
  }

  /** After the filling every listed column has a cell, and every cell reads as it did. */
  lemma {:induction false} FillAllCells(r: Row, cs: seq<Col>)
    ensures forall c :: c in cs ==> c in FillAll(r, cs)
    ensures r.Keys <= FillAll(r, cs).Keys
    ensures forall n :: CellOf(FillAll(r, cs), n) == CellOf(r, n)
    decreases |cs|
  {
    if cs != [] {
      FillAllCells(r, cs[..|cs| - 1]);
      assert forall c :: c in cs ==> c in cs[..|cs| - 1] || c == cs[|cs| - 1];
    }
  }

  /** `for c in cs: if c not in df.columns: df[c] = pd.NA`. */
  method FillColumns(f: Frame<Col>, cs: seq<Col>) returns (df: Frame<Col>)
    requires WellFormed(f)
    ensures WellFormed(df) && |df.rows| == |f.rows| && f.columns <= df.columns && HasColumns(df, cs)
    ensures forall i :: 0 <= i < |f.rows| ==> df.rows[i] == FillAll(f.rows[i], cs)
  {
    df := f;
    for k := 0 to |cs|
      invariant WellFormed(df) && |df.rows| == |f.rows| && f.columns <= df.columns
      invariant forall j :: 0 <= j < k ==> cs[j] in df.columns
      invariant forall i :: 0 <= i < |f.rows| ==> df.rows[i] == FillAll(f.rows[i], cs[..k])
    {
      assert cs[..k + 1][..k] == cs[..k];
      if cs[k] !in df.columns {
        df := Assign(df, cs[k], Missing(|f.rows|));
      }
    }
    assert cs[..|cs|] == cs;
  }

  /** Every required column the sheet lacks is added, all missing. */
  method AddMissingColumns(f: Frame<Col>) returns (df: Frame<Col>)
    requires WellFormed(f)
    ensures WellFormed(df) && |df.rows| == |f.rows| && f.columns <= df.columns && HasColumns(df, Required)
    ensures forall i :: 0 <= i < |f.rows| ==> df.rows[i] == FillAll(f.rows[i], Required)
  {
    df := FillColumns(f, Required);
  }

  // Steps 2, 3 and 6: `safe_to_datetime`, `safe_to_numeric(...).fillna(0.0)`, `astype("string").fillna("")`.

  /** The conversion a cell of column `c` goes through; other columns are not converted. */
  function Converted(p: Parsers, c: Col, cell: Cell): Cell {
    match c
    case DateCol(_) => DateCell(ToDate(p, cell))
    case WeightCol(_) => Num(ToWeight(p, cell))
    case TextCol(_) => Str(ToText(p, cell))
    case _ => cell
  }

  /** Converting an already converted cell changes nothing. */
  lemma ConvertedIdempotent(p: Parsers, c: Col, cell: Cell)
    ensures Converted(p, c, Converted(p, c, cell)) == Converted(p, c, cell)
  {
  }

  /** Column `c` converted in one row. */
  function Convert(p: Parsers, r: Row, c: Col): Row {
    r[c := Converted(p, c, CellOf(r, c))]
  }

  function ConvertAll(p: Parsers, r: Row, cs: seq<Col>): Row
    decreases |cs|
  {
    if cs == [] then r else Convert(p, ConvertAll(p, r, cs[..|cs| - 1]), cs[|cs| - 1])
  }

  /** After converting the listed columns, each of them holds its converted cell and every other column is as it was. */
  lemma {:induction false} ConvertAllCells(p: Parsers, r: Row, cs: seq<Col>)
    ensures forall n :: CellOf(ConvertAll(p, r, cs), n) == if n in cs then Converted(p, n, CellOf(r, n)) else CellOf(r, n)
    decreases |cs|
  {
    if cs != [] {
      var init, c := cs[..|cs| - 1], cs[|cs| - 1];
      ConvertAllCells(p, r, init);
      assert forall n :: n in cs <==> n in init || n == c;
      ConvertedIdempotent(p, c, CellOf(r, c));
    }
  }

  /** The date conversion, unrolled: receipt, delivery, then shipping date. */
  lemma ConvertDates(p: Parsers, r: Row)
    ensures ConvertAll(p, r, DateCols) ==
      Convert(p, Convert(p, Convert(p, r, DateCol(DtReceb)), DateCol(DtEntrega)), DateCol(DtExped))
  {
    var two, one := DateCols[..2], DateCols[..1];
    assert two[..1] == one && one[..0] == [];
    assert ConvertAll(p, r, one) == Convert(p, r, DateCol(DtReceb));
    assert ConvertAll(p, r, two) == Convert(p, ConvertAll(p, r, one), DateCol(DtEntrega));
    assert ConvertAll(p, r, DateCols) == Convert(p, ConvertAll(p, r, two), DateCol(DtExped));
  }

  /** The three date columns through `safe_to_datetime`. */
  method CoerceDates(f: Frame<Col>, p: Parsers) returns (df: Frame<Col>)
    requires WellFormed(f)
    ensures WellFormed(df) && |df.rows| == |f.rows| && f.columns <= df.columns
    ensures forall i :: 0 <= i < |f.rows| ==> df.rows[i] == ConvertAll(p, f.rows[i], DateCols)
  {
    var receb, entrega, exped := DateCol(DtReceb), DateCol(DtEntrega), DateCol(DtExped);
    df := Assign(f, receb, RowColumn(f, r => Converted(p, receb, CellOf(r, receb))));
    df := Assign(df, entrega, RowColumn(df, r => Converted(p, entrega, CellOf(r, entrega))));
    df := Assign(df, exped, RowColumn(df, r => Converted(p, exped, CellOf(r, exped))));
    forall i | 0 <= i < |f.rows|
      ensures df.rows[i] == ConvertAll(p, f.rows[i], DateCols)
    {
      ConvertDates(p, f.rows[i]);
    }
  }

  /** Every weight column through `safe_to_numeric(...).fillna(0.0)`. */
  method CoerceWeights(f: Frame<Col>, p: Parsers) returns (df: Frame<Col>)
    requires WellFormed(f)
    ensures WellFormed(df) && |df.rows| == |f.rows| && f.columns <= df.columns
    ensures forall i :: 0 <= i < |f.rows| ==> df.rows[i] == ConvertAll(p, f.rows[i], WeightCols)
  {
    df := f;
    for k := 0 to |WeightCols|
      invariant WellFormed(df) && |df.rows| == |f.rows| && f.columns <= df.columns
      invariant forall i :: 0 <= i < |f.rows| ==> df.rows[i] == ConvertAll(p, f.rows[i], WeightCols[..k])
    {
      var c := WeightCols[k];
      assert WeightCols[..k + 1][..k] == WeightCols[..k];
      df := Assign(df, c, RowColumn(df, r => Converted(p, c, CellOf(r, c))));
    }
    assert WeightCols[..|WeightCols|] == WeightCols;
  }

  /** The descriptive columns through `astype("string").fillna("")`. */
  method CoerceText(f: Frame<Col>, p: Parsers) returns (df: Frame<Col>)
    requires WellFormed(f)
    ensures WellFormed(df) && |df.rows| == |f.rows| && f.columns <= df.columns
    ensures forall i :: 0 <= i < |f.rows| ==> df.rows[i] == ConvertAll(p, f.rows[i], TextCols)
  {
    df := f;
    for k := 0 to |TextCols|
      invariant WellFormed(df) && |df.rows| == |f.rows| && f.columns <= df.columns
      invariant forall i :: 0 <= i < |f.rows| ==> df.rows[i] == ConvertAll(p, f.rows[i], TextCols[..k])
    {
      var c := TextCols[k];
      assert TextCols[..k + 1][..k] == TextCols[..k];
      df := Assign(df, c, RowColumn(df, r => Converted(p, c, CellOf(r, c))));
    }
    assert TextCols[..|TextCols|] == TextCols;
  }

  // Steps 4 and 5: the derived columns.

  function ProducedCell(r: Row): Cell {
    Num(Produced(WeightsOf(r)))
  }

  function StageCell(r: Row): Cell {
    Str(StageOfRow(NumOf(CellOf(r, WeightCol(PesoExpedKg))), WeightsOf(r)).Label())
  }

  /** `(df[a] - df[b]).clip(lower=0.0)` in one row. */
  function ClippedDiffCell(r: Row, a: Col, b: Col): Cell {
    Num(Clamp0(NumOf(CellOf(r, a)) - NumOf(CellOf(r, b))))
  }

  function LeadTimeCell(r: Row): Cell {
    IntCell(LeadTime(DayOf(CellOf(r, DateCol(DtExped))), DayOf(CellOf(r, DateCol(DtReceb)))))
  }

  function LateCell(r: Row, today: int): Cell {
    Flag(IsLate(DayOf(CellOf(r, DateCol(DtEntrega))), NumOf(CellOf(r, WeightCol(PesoExpedKg))), today))
  }

  /** The six derived columns added to one row, in the order prepare_df adds them, each reading the row as it stands. */
  function DeriveRow(r: Row, today: int): Row {
    var r1 := r[DerivedCol(ProduzidoKg) := ProducedCell(r)];
    var r2 := r1[DerivedCol(EtapaAtual) := StageCell(r1)];
    var r3 := r2[DerivedCol(SaldoAProduzirKg) := ClippedDiffCell(r2, WeightCol(PesoTotalKg), DerivedCol(ProduzidoKg))];
    var r4 := r3[DerivedCol(SaldoAExpedirKg) := ClippedDiffCell(r3, DerivedCol(ProduzidoKg), WeightCol(PesoExpedKg))];
    var r5 := r4[DerivedCol(LeadtimeDias) := LeadTimeCell(r4)];
    r5[DerivedCol(Atrasado) := LateCell(r5, today)]
  }

  /**
   * What each derived column holds, in terms of the row before: produzido is the
   * largest stage weight, etapa the first-match stage, the saldos are clipped
   * differences that read the new produzido, lead time and the late flag read
   * the dates.
   */
  lemma DeriveRowCells(r: Row, today: int)
    ensures var d, w := DeriveRow(r, today), WeightsOf(r);
      var total, exped := NumOf(CellOf(r, WeightCol(PesoTotalKg))), NumOf(CellOf(r, WeightCol(PesoExpedKg)));
      && CellOf(d, DerivedCol(ProduzidoKg)) == Num(Produced(w))
      && CellOf(d, DerivedCol(EtapaAtual)) == Str(StageOfRow(exped, w).Label())
      && CellOf(d, DerivedCol(SaldoAProduzirKg)) == Num(Clamp0(total - Produced(w)))
      && CellOf(d, DerivedCol(SaldoAExpedirKg)) == Num(Clamp0(Produced(w) - exped))
      && CellOf(d, DerivedCol(LeadtimeDias)) == IntCell(LeadTime(DayOf(CellOf(r, DateCol(DtExped))), DayOf(CellOf(r, DateCol(DtReceb)))))
      && CellOf(d, DerivedCol(Atrasado)) == Flag(IsLate(DayOf(CellOf(r, DateCol(DtEntrega))), exped, today))
  {
    DeriveRowStage(r, today);
    DeriveRowSaldos(r, today);
    DeriveRowDates(r, today);
  }

  lemma DeriveRowStage(r: Row, today: int)
    ensures var d, w := DeriveRow(r, today), WeightsOf(r);
      && CellOf(d, DerivedCol(ProduzidoKg)) == Num(Produced(w))
      && CellOf(d, DerivedCol(EtapaAtual)) == Str(StageOfRow(NumOf(CellOf(r, WeightCol(PesoExpedKg))), w).Label())
  {
    var r1 := r[DerivedCol(ProduzidoKg) := ProducedCell(r)];
    assert WeightsOf(r1) == WeightsOf(r);
  }

  lemma DeriveRowSaldos(r: Row, today: int)
    ensures var d, p := DeriveRow(r, today), Produced(WeightsOf(r));
      var total, exped := NumOf(CellOf(r, WeightCol(PesoTotalKg))), NumOf(CellOf(r, WeightCol(PesoExpedKg)));
      && CellOf(d, DerivedCol(SaldoAProduzirKg)) == Num(Clamp0(total - p))
      && CellOf(d, DerivedCol(SaldoAExpedirKg)) == Num(Clamp0(p - exped))
  {
  }

  lemma DeriveRowDates(r: Row, today: int)
    ensures var d := DeriveRow(r, today);
      && CellOf(d, DerivedCol(LeadtimeDias)) == IntCell(LeadTime(DayOf(CellOf(r, DateCol(DtExped))), DayOf(CellOf(r, DateCol(DtReceb)))))
      && CellOf(d, DerivedCol(Atrasado)) == Flag(IsLate(DayOf(CellOf(r, DateCol(DtEntrega))), NumOf(CellOf(r, WeightCol(PesoExpedKg))), today))
  {
  }

  /** The derived columns are the only ones the derivation writes. */
  lemma DeriveRowKeeps(r: Row, today: int)
    ensures forall n: Col :: !n.DerivedCol? ==> CellOf(DeriveRow(r, today), n) == CellOf(r, n)
  {
  }

  /** produzido, etapa, the two saldos, lead time and the late flag. `today` is the date `date.today()` reads. */
  method AddDerived(f: Frame<Col>, today: int) returns (df: Frame<Col>)
    requires WellFormed(f)
    ensures WellFormed(df) && |df.rows| == |f.rows| && f.columns <= df.columns && HasColumns(df, DerivedCols)
    ensures forall i :: 0 <= i < |f.rows| ==> df.rows[i] == DeriveRow(f.rows[i], today)
  {
    df := Assign(f, DerivedCol(ProduzidoKg), RowColumn(f, ProducedCell));
    df := Assign(df, DerivedCol(EtapaAtual), RowColumn(df, StageCell));
    df := Assign(df, DerivedCol(SaldoAProduzirKg), RowColumn(df, r => ClippedDiffCell(r, WeightCol(PesoTotalKg), DerivedCol(ProduzidoKg))));
    df := Assign(df, DerivedCol(SaldoAExpedirKg), RowColumn(df, r => ClippedDiffCell(r, DerivedCol(ProduzidoKg), WeightCol(PesoExpedKg))));
    df := Assign(df, DerivedCol(LeadtimeDias), RowColumn(df, LeadTimeCell));
    df := Assign(df, DerivedCol(Atrasado), RowColumn(df, r => LateCell(r, today)));
  }

  // The whole of prepare_df.

  /** The row after the dates and the weights are converted. */
  function Coerced(r: Row, p: Parsers): Row {
    ConvertAll(p, ConvertAll(p, FillAll(r, Required), DateCols), WeightCols)
  }

  /** prepare_df on one row of the renamed sheet. */
  function PreparedRow(r: Row, p: Parsers, today: int): Row {
    ConvertAll(p, DeriveRow(Coerced(r, p), today), TextCols)
  }

  /** What the conversions of dates and weights leave in one column. */
  lemma CoercedCell(r: Row, p: Parsers, n: Col)
    ensures CellOf(Coerced(r, p), n) == if n.DateCol? || n.WeightCol? then Converted(p, n, CellOf(r, n)) else CellOf(r, n)
  {
    var filled := FillAll(r, Required);
    var dated := ConvertAll(p, filled, DateCols);
    FillAllCells(r, Required);
    assert CellOf(filled, n) == CellOf(r, n);
    ConvertAllCells(p, filled, DateCols);
    ConvertAllCells(p, dated, WeightCols);
    DateColsMembers(n);
    WeightColsMembers(n);
  }

  lemma DateColsMembers(n: Col)
    ensures n in DateCols <==> n.DateCol?
  {
    if n.DateCol? {
      match n.date
      case DtReceb =>
      case DtEntrega =>
      case DtExped =>
    }
  }

  lemma WeightColsMembers(n: Col)
    ensures n in WeightCols <==> n.WeightCol?
  {
    if n.WeightCol? {
      match n.weight
      case PesoTotalKg =>
      case PesoExpedKg =>
      case PrepKg =>
      case MontKg =>
      case SoldKg =>
      case AcabKg =>
      case PintKg =>
    }
  }

  lemma TextColsMembers(n: Col)
    ensures n in TextCols <==> n.TextCol?
  {
    if n.TextCol? {
      match n.text
      case OsCliente =>
      case Tag =>
      case SituacaoDesenho =>
      case DesenhoPai =>
      case Descricao =>
    }
  }

  /** What prepare_df leaves in a column it does not derive: converted if it is a date, weight or text column, as read otherwise. */
  lemma PreparedCell(r: Row, p: Parsers, today: int, n: Col)
    requires !n.DerivedCol?
    ensures CellOf(PreparedRow(r, p, today), n) ==
      if n.TextCol? || n.DateCol? || n.WeightCol? then Converted(p, n, CellOf(r, n)) else CellOf(r, n)
  {
    var c := Coerced(r, p);
    CoercedCell(r, p, n);
    DeriveRowKeeps(c, today);
    ConvertAllCells(p, DeriveRow(c, today), TextCols);
    TextColsMembers(n);
  }


  /** A derived column holds what the derivation wrote, after the dates and weights were converted. */
  lemma PreparedDerivedCell(r: Row, p: Parsers, today: int, v: DerivedField)
    ensures CellOf(PreparedRow(r, p, today), DerivedCol(v)) == CellOf(DeriveRow(Coerced(r, p), today), DerivedCol(v))
  {
    ConvertAllCells(p, DeriveRow(Coerced(r, p), today), TextCols);
    TextColsMembers(DerivedCol(v));
  }

  /** A column prepare_df neither converts nor writes: one that names no canonical column, or `cliente`. */
  predicate Untouched(c: Col) {
    c.Other? || c.ClienteCol?
  }

  /** Columns prepare_df does not write keep their cells, and every weight cell ends numeric. */
  lemma PreparedRowCells(r: Row, p: Parsers, today: int)
    ensures forall n :: Untouched(n) ==> CellOf(PreparedRow(r, p, today), n) == CellOf(r, n)
    ensures forall w: WeightField :: CellOf(PreparedRow(r, p, today), WeightCol(w)).Num?
  {
    forall n | Untouched(n)
      ensures CellOf(PreparedRow(r, p, today), n) == CellOf(r, n)
    {
      PreparedCell(r, p, today, n);
    }
    forall w: WeightField
      ensures CellOf(PreparedRow(r, p, today), WeightCol(w)).Num?
    {
      PreparedCell(r, p, today, WeightCol(w));
    }
  }

  /** The derived columns of a row agree with the row's own weights and dates, as prepare_df leaves them. */
  predicate DerivedConsistent(r: Row, today: int) {
    && CellOf(r, DerivedCol(ProduzidoKg)) == ProducedCell(r)
    && CellOf(r, DerivedCol(EtapaAtual)) == StageCell(r)
    && CellOf(r, DerivedCol(SaldoAProduzirKg)) == ClippedDiffCell(r, WeightCol(PesoTotalKg), DerivedCol(ProduzidoKg))
    && CellOf(r, DerivedCol(SaldoAExpedirKg)) == ClippedDiffCell(r, DerivedCol(ProduzidoKg), WeightCol(PesoExpedKg))
    && CellOf(r, DerivedCol(LeadtimeDias)) == LeadTimeCell(r)
    && CellOf(r, DerivedCol(Atrasado)) == LateCell(r, today)
  }

  lemma DeriveRowConsistent(r: Row, today: int)
    ensures DerivedConsistent(DeriveRow(r, today), today)
  {
    DeriveRowCells(r, today);
    DeriveRowKeeps(r, today);
    ConsistentFromCells(r, DeriveRow(r, today), today);
  }

  /** A row whose derived cells are computed from the cells of `r`, which it keeps, is consistent. */
  lemma ConsistentFromCells(r: Row, d: Row, today: int)
    requires forall n: Col :: !n.DerivedCol? ==> CellOf(d, n) == CellOf(r, n)
    requires var w := WeightsOf(r);
      var total, exped := NumOf(CellOf(r, WeightCol(PesoTotalKg))), NumOf(CellOf(r, WeightCol(PesoExpedKg)));
      && CellOf(d, DerivedCol(ProduzidoKg)) == Num(Produced(w))
      && CellOf(d, DerivedCol(EtapaAtual)) == Str(StageOfRow(exped, w).Label())
      && CellOf(d, DerivedCol(SaldoAProduzirKg)) == Num(Clamp0(total - Produced(w)))
      && CellOf(d, DerivedCol(SaldoAExpedirKg)) == Num(Clamp0(Produced(w) - exped))
      && CellOf(d, DerivedCol(LeadtimeDias)) == IntCell(LeadTime(DayOf(CellOf(r, DateCol(DtExped))), DayOf(CellOf(r, DateCol(DtReceb)))))
      && CellOf(d, DerivedCol(Atrasado)) == Flag(IsLate(DayOf(CellOf(r, DateCol(DtEntrega))), exped, today))
    ensures DerivedConsistent(d, today)
  {
    assert WeightsOf(d) == WeightsOf(r);
    assert CellOf(d, WeightCol(PesoTotalKg)) == CellOf(r, WeightCol(PesoTotalKg));
    assert CellOf(d, WeightCol(PesoExpedKg)) == CellOf(r, WeightCol(PesoExpedKg));
    assert CellOf(d, DateCol(DtReceb)) == CellOf(r, DateCol(DtReceb));
    assert CellOf(d, DateCol(DtExped)) == CellOf(r, DateCol(DtExped));
    assert CellOf(d, DateCol(DtEntrega)) == CellOf(r, DateCol(DtEntrega));
  }

  /** Whether the derived columns are consistent depends on no text column. */
  lemma DerivedCellsAgree(r: Row, s: Row, today: int)
    requires forall n: Col :: !n.TextCol? ==> CellOf(r, n) == CellOf(s, n)
    ensures DerivedConsistent(r, today) <==> DerivedConsistent(s, today)
  {
    assert WeightsOf(r) == WeightsOf(s) by {
      assert CellOf(r, WeightCol(PrepKg)) == CellOf(s, WeightCol(PrepKg));
      assert CellOf(r, WeightCol(MontKg)) == CellOf(s, WeightCol(MontKg));
      assert CellOf(r, WeightCol(SoldKg)) == CellOf(s, WeightCol(SoldKg));
      assert CellOf(r, WeightCol(AcabKg)) == CellOf(s, WeightCol(AcabKg));
      assert CellOf(r, WeightCol(PintKg)) == CellOf(s, WeightCol(PintKg));
    }
    assert CellOf(r, WeightCol(PesoTotalKg)) == CellOf(s, WeightCol(PesoTotalKg));
    assert CellOf(r, WeightCol(PesoExpedKg)) == CellOf(s, WeightCol(PesoExpedKg));
    assert CellOf(r, DateCol(DtReceb)) == CellOf(s, DateCol(DtReceb));
    assert CellOf(r, DateCol(DtEntrega)) == CellOf(s, DateCol(DtEntrega));
    assert CellOf(r, DateCol(DtExped)) == CellOf(s, DateCol(DtExped));
    assert CellOf(r, DerivedCol(ProduzidoKg)) == CellOf(s, DerivedCol(ProduzidoKg));
    assert CellOf(r, DerivedCol(EtapaAtual)) == CellOf(s, DerivedCol(EtapaAtual));
    assert CellOf(r, DerivedCol(SaldoAProduzirKg)) == CellOf(s, DerivedCol(SaldoAProduzirKg));
    assert CellOf(r, DerivedCol(SaldoAExpedirKg)) == CellOf(s, DerivedCol(SaldoAExpedirKg));
    assert CellOf(r, DerivedCol(LeadtimeDias)) == CellOf(s, DerivedCol(LeadtimeDias));
    assert CellOf(r, DerivedCol(Atrasado)) == CellOf(s, DerivedCol(Atrasado));
  }

  /** The text conversion leaves the derived columns consistent. */
  lemma PreparedRowConsistent(r: Row, p: Parsers, today: int)
    ensures DerivedConsistent(PreparedRow(r, p, today), today)
  {
    var d := DeriveRow(Coerced(r, p), today);
    DeriveRowConsistent(Coerced(r, p), today);
    ConvertAllCells(p, d, TextCols);
    forall n: Col | !n.TextCol?
      ensures CellOf(d, n) == CellOf(PreparedRow(r, p, today), n)
    {
      TextColsMembers(n);
    }
    DerivedCellsAgree(d, PreparedRow(r, p, today), today);
  }

  /** A row whose required columns hold the converted cells of `r` and whose derived columns are consistent reads as `PrepareRow` of `r`. */
  lemma RecordOfConverted(pr: Row, r: Row, p: Parsers, today: int)
    requires forall d: DateField :: CellOf(pr, DateCol(d)) == DateCell(ToDate(p, CellOf(r, DateCol(d))))
    requires forall w: WeightField :: CellOf(pr, WeightCol(w)) == Num(ToWeight(p, CellOf(r, WeightCol(w))))
    requires forall t: TextField :: CellOf(pr, TextCol(t)) == Str(ToText(p, CellOf(r, TextCol(t))))
    requires CellOf(pr, ClienteCol) == CellOf(r, ClienteCol)
    requires DerivedConsistent(pr, today)
    ensures RecordOf(pr, p) == PrepareRow(RawRowOf(r), p, today)
  {
    DayOfDateCell(ToDate(p, CellOf(r, DateCol(DtReceb))));
    DayOfDateCell(ToDate(p, CellOf(r, DateCol(DtEntrega))));
    DayOfDateCell(ToDate(p, CellOf(r, DateCol(DtExped))));
    assert CellOf(pr, WeightCol(PesoTotalKg)) == Num(ToWeight(p, CellOf(r, WeightCol(PesoTotalKg))));
    assert CellOf(pr, WeightCol(PesoExpedKg)) == Num(ToWeight(p, CellOf(r, WeightCol(PesoExpedKg))));
    assert CellOf(pr, WeightCol(PrepKg)) == Num(ToWeight(p, CellOf(r, WeightCol(PrepKg))));
    assert CellOf(pr, WeightCol(MontKg)) == Num(ToWeight(p, CellOf(r, WeightCol(MontKg))));
    assert CellOf(pr, WeightCol(SoldKg)) == Num(ToWeight(p, CellOf(r, WeightCol(SoldKg))));
    assert CellOf(pr, WeightCol(AcabKg)) == Num(ToWeight(p, CellOf(r, WeightCol(AcabKg))));
    assert CellOf(pr, WeightCol(PintKg)) == Num(ToWeight(p, CellOf(r, WeightCol(PintKg))));
    assert WeightsOf(pr) == RecordOf(pr, p).Weights();
  }

  /** The prepared row, read as a record, is `PrepareRow` of the sheet's row: the steps compose to the per-row definition. */
  lemma PreparedRowRecord(r: Row, p: Parsers, today: int)
    ensures RecordOf(PreparedRow(r, p, today), p) == PrepareRow(RawRowOf(r), p, today)
  {
    var pr := PreparedRow(r, p, today);
    forall d: DateField
      ensures CellOf(pr, DateCol(d)) == DateCell(ToDate(p, CellOf(r, DateCol(d))))
    {
      PreparedCell(r, p, today, DateCol(d));
    }
    forall w: WeightField
      ensures CellOf(pr, WeightCol(w)) == Num(ToWeight(p, CellOf(r, WeightCol(w))))
    {
      PreparedCell(r, p, today, WeightCol(w));
    }
    forall t: TextField
      ensures CellOf(pr, TextCol(t)) == Str(ToText(p, CellOf(r, TextCol(t))))
    {
      PreparedCell(r, p, today, TextCol(t));
    }
    PreparedCell(r, p, today, ClienteCol);
    PreparedRowConsistent(r, p, today);
    RecordOfConverted(pr, r, p, today);
  }

  /**
   * prepare_df: renames aliased headers, adds every missing required column as
   * all-missing, coerces dates and weights, adds the derived columns and turns
   * the descriptive columns into text. `today` is the date `date.today()` reads.
   */
  method PrepareDf(raw: Frame<string>, p: Parsers, today: int) returns (df: Frame<Col>)
    requires WellFormed(raw) && RenameInjective(raw.columns)
    ensures WellFormed(df) && |df.rows| == |raw.rows|
    ensures HasColumns(df, Required) && HasColumns(df, DerivedCols)
    ensures forall i :: 0 <= i < |raw.rows| ==> df.rows[i] == PreparedRow(Renamed(raw).rows[i], p, today)
    ensures forall i :: 0 <= i < |raw.rows| ==> RecordOf(df.rows[i], p) == PrepareRow(RawRowOf(Renamed(raw).rows[i]), p, today)
  {
    var renamed := Renamed(raw);
    var full := AddMissingColumns(renamed);
    var dated := CoerceDates(full, p);
    var weighed := CoerceWeights(dated, p);
    var derived := AddDerived(weighed, today);
    df := CoerceText(derived, p);
    forall i | 0 <= i < |raw.rows|
      ensures RecordOf(df.rows[i], p) == PrepareRow(RawRowOf(renamed.rows[i]), p, today)
    {
      PreparedRowRecord(renamed.rows[i], p, today);
    }
  }

  /** The prepared table as the views receive it from the store: one record per row, in order. */
  function Records(df: Frame<Col>, p: Parsers): (t: seq<Record>)
    ensures |t| == |df.rows| && forall i :: 0 <= i < |df.rows| ==> t[i] == RecordOf(df.rows[i], p)
  {
    Map(df.rows, r => RecordOf(r, p))
  }

  /** Every record of a prepared table satisfies the derived-field facts. */
  lemma PreparedRecords(raw: Frame<string>, df: Frame<Col>, p: Parsers, today: int)
    requires WellFormed(raw) && RenameInjective(raw.columns) && |df.rows| == |raw.rows|
    requires forall i :: 0 <= i < |raw.rows| ==> df.rows[i] == PreparedRow(Renamed(raw).rows[i], p, today)
    ensures forall i :: 0 <= i < |df.rows| ==> Prepared(Records(df, p)[i], today)
  {
    forall i | 0 <= i < |df.rows|
      ensures Prepared(Records(df, p)[i], today)
    {
      PreparedRowRecord(Renamed(raw).rows[i], p, today);
    }
  }

  // ---------------------------------------------------------------------------
  // apply_filters
  // ---------------------------------------------------------------------------

  /**
   * The selections the filter controls pass: four multi-select lists (empty when
   * nothing is selected), the two date-range pickers as lists of optional day
   * numbers (`[start, end]` when the picker is set up), and the drawing text.
   */
  datatype FilterSpec = FilterSpec(
    clientes: seq<string>, osValues: seq<string>, tagValues: seq<string>, situacoes: seq<string>,
    dtRecebRange: seq<Option<int>>, dtExpedRange: seq<Option<int>>, desenhoText: string)

  /** `col.isin(selection)`, active only for a non-empty selection. */
  predicate InSelection(selection: seq<string>, v: string) {
    selection == [] || v in selection
  }

  /** `col >= start`: a missing date (`NaT`) compares false. */
  predicate AtLeast(start: Option<int>, d: Option<int>) {
    start.None? || (d.Some? && d.value >= start.value)
  }

  /** `col <= end`: a missing date (`NaT`) compares false. */
  predicate AtMost(end: Option<int>, d: Option<int>) {
    end.None? || (d.Some? && d.value <= end.value)
  }

  /** A date range is applied only when it has exactly two entries; each set end is a bound. */
  predicate InRange(range: seq<Option<int>>, d: Option<int>) {
    |range| == 2 ==> AtLeast(range[0], d) && AtMost(range[1], d)
  }

  /** `.str.lower().str.contains(re.escape(text.strip().lower()))`: a literal, case-insensitive substring test. */
  predicate MatchesText(text: string, v: string) {
    text == [] || Contains(Lower(v), Lower(Strip(text)))
  }

  /** A row passes every active filter. */
  predicate Keep(spec: FilterSpec, r: Record) {
    && InSelection(spec.clientes, r.cliente)
    && InSelection(spec.osValues, r.osCliente)
    && InSelection(spec.tagValues, r.tag)
    && InSelection(spec.situacoes, r.situacaoDesenho)
    && InRange(spec.dtRecebRange, r.dtReceb)
    && InRange(spec.dtExpedRange, r.dtExped)
    && MatchesText(spec.desenhoText, r.desenhoPai)
  }

  function KeepFn(spec: FilterSpec): Record -> bool {
    r => Keep(spec, r)
  }

  /** The rows apply_filters keeps, in their original order: the reference the method is proved against. */
  function Filtered(spec: FilterSpec, rows: seq<Record>): seq<Record> {
    Select(rows, KeepFn(spec))
  }

  /** The selections under which no filter is active. */
  const NoFilters := FilterSpec([], [], [], [], [], [], "")

  /** One more active filter narrows the rows kept so far by its own test. */
  lemma Narrow(rows: seq<Record>, before: FilterSpec, after: FilterSpec, q: Record -> bool)
    requires forall r :: Keep(after, r) == (Keep(before, r) && q(r))
    ensures Select(Filtered(before, rows), q) == Filtered(after, rows)
  {
    SelectSelectExt(rows, KeepFn(before), q, KeepFn(after));
  }

  /** Selections that keep the same rows give the same table. */
  lemma SameRows(rows: seq<Record>, before: FilterSpec, after: FilterSpec)
    requires forall r :: Keep(after, r) == Keep(before, r)
    ensures Filtered(before, rows) == Filtered(after, rows)
  {
    SelectExt(rows, KeepFn(before), KeepFn(after));
  }

  function SelectionTest(selection: seq<string>, field: Record -> string): Record -> bool {
    r => InSelection(selection, field(r))
  }

  function RangeTest(range: seq<Option<int>>, date: Record -> Option<int>): Record -> bool {
    r => InRange(range, date(r))
  }

  function TextTest(text: string): Record -> bool {
    (r: Record) => MatchesText(text, r.desenhoPai)
  }

  /** `out[out[col].isin(selection)]` when the selection is not empty. */
  method NarrowBySelection(out: seq<Record>, selection: seq<string>, field: Record -> string)
    returns (res: seq<Record>)
    ensures res == Select(out, SelectionTest(selection, field))
  {
    if selection != [] {
      res := Select(out, (r: Record) => field(r) in selection);
      SelectExt(out, (r: Record) => field(r) in selection, SelectionTest(selection, field));
    } else {
      res := out;
      SelectAll(out, SelectionTest(selection, field));
    }
  }

  /** A date-range picker: each of its two ends, when set, bounds the date column. */
  method NarrowByRange(out: seq<Record>, range: seq<Option<int>>, date: Record -> Option<int>)
    returns (res: seq<Record>)
    ensures res == Select(out, RangeTest(range, date))
  {
    res := out;
    ghost var kept: Record -> bool := _ => true;
    SelectAll(out, kept);
    if |range| == 2 {
      var start, end := range[0], range[1];
      if start.Some? {
        var q := (r: Record) => date(r).Some? && date(r).value >= start.value;
        ghost var next := (r: Record) => AtLeast(start, date(r));
        SelectSelectExt(out, kept, q, next);
        res, kept := Select(res, q), next;
      } else {
        ghost var next := (r: Record) => AtLeast(start, date(r));
        SelectExt(out, kept, next);
        kept := next;
      }
      if end.Some? {
        var q := (r: Record) => date(r).Some? && date(r).value <= end.value;
        ghost var next := (r: Record) => AtLeast(start, date(r)) && AtMost(end, date(r));
        SelectSelectExt(out, kept, q, next);
        res, kept := Select(res, q), next;
      } else {
        ghost var next := (r: Record) => AtLeast(start, date(r)) && AtMost(end, date(r));
        SelectExt(out, kept, next);
        kept := next;
      }
    }
    SelectExt(out, kept, RangeTest(range, date));
  }

  /** The drawing-name search: a literal, case-insensitive substring test when the text is not empty. */
  method NarrowByText(out: seq<Record>, text: string) returns (res: seq<Record>)
    ensures res == Select(out, TextTest(text))
  {
    if text != [] {
      var t := Lower(Strip(text));
      res := Select(out, (r: Record) => Contains(Lower(r.desenhoPai), t));
      SelectExt(out, (r: Record) => Contains(Lower(r.desenhoPai), t), TextTest(text));
    } else {
      res := out;
      SelectAll(out, TextTest(text));
    }
  }

  /**
   * apply_filters: narrows a copy of the table by each active filter in turn,
   * categorical lists first, then the two date ranges, then the drawing text.
   * After each step `out` holds the rows the selections applied so far keep.
   */
  method ApplyFilters(rows: seq<Record>, spec: FilterSpec) returns (out: seq<Record>)
    ensures out == Filtered(spec, rows)
  {
    var FilterSpec(cs, os, tags, sits, receb, exped, text) := spec;
    var cliente, osCliente, tag, situacao := (r: Record) => r.cliente, (r: Record) => r.osCliente,
      (r: Record) => r.tag, (r: Record) => r.situacaoDesenho;
    var dtReceb, dtExped := (r: Record) => r.dtReceb, (r: Record) => r.dtExped;
    SelectAll(rows, KeepFn(NoFilters));
    out := NarrowBySelection(rows, cs, cliente);
    Narrow(rows, NoFilters, FilterSpec(cs, [], [], [], [], [], ""), SelectionTest(cs, cliente));
    out := NarrowBySelection(out, os, osCliente);
    Narrow(rows, FilterSpec(cs, [], [], [], [], [], ""), FilterSpec(cs, os, [], [], [], [], ""),
      SelectionTest(os, osCliente));
    out := NarrowBySelection(out, tags, tag);
    Narrow(rows, FilterSpec(cs, os, [], [], [], [], ""), FilterSpec(cs, os, tags, [], [], [], ""),
      SelectionTest(tags, tag));
    out := NarrowBySelection(out, sits, situacao);
    Narrow(rows, FilterSpec(cs, os, tags, [], [], [], ""), FilterSpec(cs, os, tags, sits, [], [], ""),
      SelectionTest(sits, situacao));
    out := NarrowByRange(out, receb, dtReceb);
    Narrow(rows, FilterSpec(cs, os, tags, sits, [], [], ""), FilterSpec(cs, os, tags, sits, receb, [], ""),
      RangeTest(receb, dtReceb));
    out := NarrowByRange(out, exped, dtExped);
    Narrow(rows, FilterSpec(cs, os, tags, sits, receb, [], ""), FilterSpec(cs, os, tags, sits, receb, exped, ""),
      RangeTest(exped, dtExped));
    out := NarrowByText(out, text);
    Narrow(rows, FilterSpec(cs, os, tags, sits, receb, exped, ""), spec, TextTest(text));
  }

  /** The filtered table is the input with some rows left out and the rest in their original order. */
  lemma FilteredIsSubseq(spec: FilterSpec, rows: seq<Record>)
    ensures SubseqOf(Filtered(spec, rows), rows)
  {
    SelectIsSubseq(rows, KeepFn(spec));
  }

  /** A row is kept exactly when it is in the input and passes every active filter. */
  lemma FilteredMembers(spec: FilterSpec, rows: seq<Record>, r: Record)
    ensures r in Filtered(spec, rows) <==> r in rows && Keep(spec, r)
  {
  }

  /** Filtering an already filtered table with the same selections changes nothing. */
  lemma FilteredIdempotent(spec: FilterSpec, rows: seq<Record>)
    ensures Filtered(spec, Filtered(spec, rows)) == Filtered(spec, rows)
  {
    var keep := KeepFn(spec);
    SelectSelectExt(rows, keep, keep, keep);
  }

  /** No selection, unset date ends and no text: the filters keep the table whole. */
  predicate Inactive(spec: FilterSpec) {
    && spec.clientes == [] && spec.osValues == [] && spec.tagValues == [] && spec.situacoes == []
    && (forall i :: 0 <= i < |spec.dtRecebRange| ==> spec.dtRecebRange[i].None?)
    && (forall i :: 0 <= i < |spec.dtExpedRange| ==> spec.dtExpedRange[i].None?)
    && spec.desenhoText == []
  }

  lemma InactiveIsIdentity(spec: FilterSpec, rows: seq<Record>)
    requires Inactive(spec)
    ensures Filtered(spec, rows) == rows
  {
    SelectAll(rows, KeepFn(spec));
  }

  /**
   * What a kept row satisfies: its categorical fields are exact members of the
   * non-empty selections, a set date bound requires the date to be present and
   * within it, and the lower-cased drawing holds the stripped, lower-cased text at
   * some position.
   */
  lemma KeptRow(spec: FilterSpec, rows: seq<Record>, r: Record)
    requires r in Filtered(spec, rows)
    ensures spec.clientes != [] ==> r.cliente in spec.clientes
    ensures spec.osValues != [] ==> r.osCliente in spec.osValues
    ensures spec.tagValues != [] ==> r.tag in spec.tagValues
    ensures spec.situacoes != [] ==> r.situacaoDesenho in spec.situacoes
    ensures |spec.dtRecebRange| == 2 && (spec.dtRecebRange[0].Some? || spec.dtRecebRange[1].Some?) ==> r.dtReceb.Some?
    ensures |spec.dtRecebRange| == 2 && spec.dtRecebRange[0].Some? ==> r.dtReceb.Some? && r.dtReceb.value >= spec.dtRecebRange[0].value
    ensures |spec.dtRecebRange| == 2 && spec.dtRecebRange[1].Some? ==> r.dtReceb.Some? && r.dtReceb.value <= spec.dtRecebRange[1].value
    ensures |spec.dtExpedRange| == 2 && (spec.dtExpedRange[0].Some? || spec.dtExpedRange[1].Some?) ==> r.dtExped.Some?
    ensures |spec.dtExpedRange| == 2 && spec.dtExpedRange[0].Some? ==> r.dtExped.Some? && r.dtExped.value >= spec.dtExpedRange[0].value
    ensures |spec.dtExpedRange| == 2 && spec.dtExpedRange[1].Some? ==> r.dtExped.Some? && r.dtExped.value <= spec.dtExpedRange[1].value
    ensures spec.desenhoText != [] ==>
      exists i :: 0 <= i <= |r.desenhoPai| && OccursAt(Lower(r.desenhoPai), Lower(Strip(spec.desenhoText)), i)
  {
    FilteredMembers(spec, rows, r);
    RangeBounds(spec.dtRecebRange, r.dtReceb);
    RangeBounds(spec.dtExpedRange, r.dtExped);
    if spec.desenhoText != [] {
      assert MatchesText(spec.desenhoText, r.desenhoPai);
      ContainsAt(Lower(r.desenhoPai), Lower(Strip(spec.desenhoText)));
    }
  }

  /** A date within an active two-entry range is present and within each set bound. */
  lemma RangeBounds(range: seq<Option<int>>, d: Option<int>)
    requires InRange(range, d)
    ensures |range| == 2 && (range[0].Some? || range[1].Some?) ==> d.Some?
    ensures |range| == 2 && range[0].Some? ==> d.Some? && d.value >= range[0].value
    ensures |range| == 2 && range[1].Some? ==> d.Some? && d.value <= range[1].value
  {
  }
}
