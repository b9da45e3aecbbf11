/**
 * The processing block of `fetch_api_data`: it turns the history response and
 * the per-order detail responses into the merged work-order table and the
 * cleaned detail table that the dashboard pages read.
 *
 * Amounts are `real`. Number coercion (`pd.to_numeric(..., errors='coerce')`)
 * and date parsing (`pd.to_datetime(..., errors='coerce')`) are parameters:
 * `numeric(s)` and `parse(s)` are `None` exactly when pandas would yield NaN/NaT.
 */
module Merge {
  import opened Wrappers
  import opened Records

  /** A row of the merged table: the header, its parsed dates and its summed cost. */
  datatype MergedRow = MergedRow(
    numeroos: int,
    fields: OsFields,
    openedAt: Option<Instant>,
    startedAt: Option<Instant>,
    finishedAt: Option<Instant>,
    valortotal: real)

  /** A row of the cleaned detail table: its order number and its coerced amounts. */
  datatype DetailLine = DetailLine(numeroos: int, quantidade: real, valorunit: real, valortotal: real)

  /** What a successful run stores in the session: the merged and the detail tables. */
  datatype Processed = Processed(merged: seq<MergedRow>, details: seq<DetailLine>)

  /** A detail response contributes its lines when its `data` is non-empty and starts with a non-null entry. */
  predicate Kept(p: DetailPayload)
  {
    |p.data| > 0 && p.data[0].Some?
  }

  /** `detalhes_list`: the entries of every kept payload, in response order. */
  function Flatten(payloads: seq<DetailPayload>): (r: seq<Option<DetailItem>>)
    ensures forall x :: x in r <==> exists p :: p in payloads && Kept(p) && x in p.data
  {
    if payloads == [] then []
    else
      var rest := Flatten(payloads[1..]);
      assert forall p :: p in payloads[1..] ==> p in payloads;
      assert forall p :: p in payloads ==> p == payloads[0] || p in payloads[1..];
      (if Kept(payloads[0]) then payloads[0].data else []) + rest
  }

  /** True when no entry is null; otherwise building the detail DataFrame raises. */
  predicate AllPresent(entries: seq<Option<DetailItem>>)
  {
    forall i :: 0 <= i < |entries| ==> entries[i].Some?
  }

  /** The items of a list without null entries. */
  function Present(entries: seq<Option<DetailItem>>): (r: seq<DetailItem>)
    requires AllPresent(entries)
    ensures |r| == |entries|
    ensures forall i :: 0 <= i < |r| ==> entries[i] == Some(r[i])
  {
    if entries == [] then [] else [entries[0].value] + Present(entries[1..])
  }

  /** A field after `pd.to_numeric(errors='coerce')` and `fillna(0)`. */
  function Coerce(v: Option<string>, numeric: string -> Option<real>): real
  {
    match v
    case None => 0.0
    case Some(s) => match numeric(s) case None => 0.0 case Some(x) => x
  }

  /** The cleaned line of a detail item that carries order number `n`. */
  function ToLine(n: int, f: DetailFields, numeric: string -> Option<real>): DetailLine
  {
    DetailLine(n, Coerce(f.quantidade, numeric), Coerce(f.valorunit, numeric), Coerce(f.valortotal, numeric))
  }

  /**
   * `dropna(subset=['numeroos'])`, the integer cast and the numeric coercion:
   * the lines are exactly the items that carry an order number, coerced.
   */
  function CleanLines(items: seq<DetailItem>, numeric: string -> Option<real>): (r: seq<DetailLine>)
    ensures |r| <= |items|
    ensures forall l :: l in r <==>
      exists it :: it in items && it.numeroos.Some? && l == ToLine(it.numeroos.value, it.fields, numeric)
  {
    if items == [] then []
    else
      var init := items[..|items| - 1];
      var last := items[|items| - 1];
      var rest := CleanLines(init, numeric);
      assert forall it :: it in items <==> it in init || it == last;
      match last.numeroos
      case None => rest
      case Some(n) => rest + [ToLine(n, last.fields, numeric)]
  }

  /** The sum of the amounts of the lines of order `n` (0 when it has none). */
  function SumFor(lines: seq<DetailLine>, n: int): real
  {
    if lines == [] then 0.0
    else
      var last := lines[|lines| - 1];
      SumFor(lines[..|lines| - 1], n) + (if last.numeroos == n then last.valortotal else 0.0)
  }

  /** The sum of the coerced amounts of the raw items that carry order number `n`. */
  function RawTotal(items: seq<DetailItem>, n: int, numeric: string -> Option<real>): real
  {
    if items == [] then 0.0
    else
      var last := items[|items| - 1];
      RawTotal(items[..|items| - 1], n, numeric)
        + (if last.numeroos == Some(n) then Coerce(last.fields.valortotal, numeric) else 0.0)
  }

  /** True when some line belongs to order `n`. */
  predicate HasLine(lines: seq<DetailLine>, n: int)
  {
    exists i :: 0 <= i < |lines| && lines[i].numeroos == n
  }

  /**
   * `groupby('numeroos').agg(valortotal=('valortotal', 'sum'))`: one entry per
   * order number that has lines, holding the sum of their amounts.
   */
  function GroupTotals(lines: seq<DetailLine>): (g: map<int, real>)
    ensures forall n :: n in g <==> HasLine(lines, n)
    ensures forall n :: n in g ==> g[n] == SumFor(lines, n)
  {
    if lines == [] then map[]
    else
      var init := lines[..|lines| - 1];
      var last := lines[|lines| - 1];
      var g := GroupTotals(init);
      forall n | HasLine(lines, n) && n != last.numeroos ensures HasLine(init, n) {
        var i :| 0 <= i < |lines| && lines[i].numeroos == n;
        assert i < |init| && init[i] == lines[i];
      }
      forall n | HasLine(init, n) ensures HasLine(lines, n) {
        var i :| 0 <= i < |init| && init[i].numeroos == n;
        assert lines[i] == init[i];
      }
      assert HasLine(lines, last.numeroos) by { assert lines[|lines| - 1].numeroos == last.numeroos; }
      var prior := if last.numeroos in g then g[last.numeroos] else 0.0;
      assert last.numeroos !in g ==> SumFor(init, last.numeroos) == 0.0 by {
        if last.numeroos !in g { SumForWithoutLines(init, last.numeroos); }
      }
      g[last.numeroos := prior + last.valortotal]
  }

  /** An order without lines sums to 0. */
  lemma {:induction false} SumForWithoutLines(lines: seq<DetailLine>, n: int)
    requires !HasLine(lines, n)
    ensures SumFor(lines, n) == 0.0
  {
    if lines != [] {
      var init := lines[..|lines| - 1];
      assert !HasLine(init, n) by {
        forall i | 0 <= i < |init| ensures init[i].numeroos != n { assert init[i] == lines[i]; }
      }
      SumForWithoutLines(init, n);
      assert lines[|lines| - 1].numeroos != n;
    }
  }

  /** Dropping and coercing lines keeps, per order, the sum of the coerced raw amounts. */
  lemma {:induction false} CleanLinesKeepTotals(items: seq<DetailItem>, n: int, numeric: string -> Option<real>)
    ensures SumFor(CleanLines(items, numeric), n) == RawTotal(items, n, numeric)
  {
    if items != [] {
      var init := items[..|items| - 1];
      var last := items[|items| - 1];
      CleanLinesKeepTotals(init, n, numeric);
      match last.numeroos
      case None =>
      case Some(m) =>
        var rest := CleanLines(init, numeric);
        var ext := rest + [ToLine(m, last.fields, numeric)];
        assert ext[..|ext| - 1] == rest;
    }
  }

  /** A date column after `pd.to_datetime(errors='coerce')`: null or unparsable becomes absent. */
  function ParseField(v: Option<string>, parse: string -> Option<Instant>): Option<Instant>
  {
    match v
    case None => None
    case Some(s) => parse(s)
  }

  /** One merged row: the header with its dates parsed and the given total. */
  function ToMergedRow(item: OsItem, total: real, parse: string -> Option<Instant>): MergedRow
    requires item.numeroos.Some?
  {
    MergedRow(item.numeroos.value, item.fields,
      ParseField(item.fields.datahoraos, parse),
      ParseField(item.fields.datahorainicio, parse),
      ParseField(item.fields.datahorafim, parse),
      total)
  }

  /** `pd.merge(df_historico, totals, on='numeroos', how='left')` followed by `fillna(0)`. */
  function LeftJoin(headers: seq<OsItem>, totals: map<int, real>, parse: string -> Option<Instant>): (r: seq<MergedRow>)
    requires AllKeyed(headers)
    ensures |r| == |headers|
    ensures forall i :: 0 <= i < |r| ==>
      && r[i].numeroos == headers[i].numeroos.value
      && r[i].fields == headers[i].fields
      && (r[i].numeroos in totals ==> r[i].valortotal == totals[r[i].numeroos])
      && (r[i].numeroos !in totals ==> r[i].valortotal == 0.0)
  {
    seq(|headers|, i requires 0 <= i < |headers| =>
      var n := headers[i].numeroos.value;
      ToMergedRow(headers[i], if n in totals then totals[n] else 0.0, parse))
  }

  /**
   * The whole processing block. `history` is the history response's `data`
   * (`None` when the key is missing). The result is `None` when pandas raises,
   * in which case the caller logs the error and keeps the previous tables.
   */
  function Process(
    history: Option<seq<OsItem>>,
    payloads: seq<DetailPayload>,
    numeric: string -> Option<real>,
    parse: string -> Option<Instant>): (r: Option<Processed>)
    ensures r.Some? <==>
      history.Some? && |history.value| > 0 && AllKeyed(history.value) && AllPresent(Flatten(payloads))
    ensures r.Some? ==> |r.value.merged| == |history.value|
    ensures r.Some? ==> forall i :: 0 <= i < |r.value.merged| ==>
      && r.value.merged[i].numeroos == history.value[i].numeroos.value
      && r.value.merged[i].fields == history.value[i].fields
      && r.value.merged[i].openedAt == ParseField(history.value[i].fields.datahoraos, parse)
      && r.value.merged[i].startedAt == ParseField(history.value[i].fields.datahorainicio, parse)
      && r.value.merged[i].finishedAt == ParseField(history.value[i].fields.datahorafim, parse)
    ensures r.Some? ==> r.value.details == CleanLines(DetailItems(payloads), numeric)
  {
    match history
    case None => None
    case Some(headers) =>
      if |headers| == 0 || !AllKeyed(headers) then None
      else
        var entries := Flatten(payloads);
        if !AllPresent(entries) then None
        else if |entries| == 0 then
          // no detail at all: every total is set to 0
          Some(Processed(LeftJoin(headers, map[], parse), []))
        else
          var lines := CleanLines(Present(entries), numeric);
          Some(Processed(LeftJoin(headers, GroupTotals(lines), parse), lines))
  }

  /** The detail items that the processing block reads: the present entries of the kept payloads. */
  function DetailItems(payloads: seq<DetailPayload>): seq<DetailItem>
    requires AllPresent(Flatten(payloads))
  {
    Present(Flatten(payloads))
  }

  /**
   * Every merged row's total is the sum of the coerced amounts of the detail
   * items carrying its order number: 0 when there are none, and an
   * unparsable or null amount counts as 0.
   */
  lemma MergedTotals(
    history: Option<seq<OsItem>>,
    payloads: seq<DetailPayload>,
    numeric: string -> Option<real>,
    parse: string -> Option<Instant>)
    requires Process(history, payloads, numeric, parse).Some?
    ensures forall i :: 0 <= i < |history.value| ==>
      Process(history, payloads, numeric, parse).value.merged[i].valortotal
        == RawTotal(DetailItems(payloads), history.value[i].numeroos.value, numeric)
  {
    var headers := history.value;
    var entries := Flatten(payloads);
    var items := Present(entries);
    var merged := Process(history, payloads, numeric, parse).value.merged;
    forall i | 0 <= i < |headers|
      ensures merged[i].valortotal == RawTotal(items, headers[i].numeroos.value, numeric)
    {
      var n := headers[i].numeroos.value;
      var lines := CleanLines(items, numeric);
      CleanLinesKeepTotals(items, n, numeric);
      if |entries| == 0 {
        assert items == [];
      } else {
        var g := GroupTotals(lines);
        if n !in g { SumForWithoutLines(lines, n); }
      }
    }
  }
}
