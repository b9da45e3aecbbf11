/**
 * The selection of the "OS em andamento" page: the rows started and not
 * completed, each with its age in whole days since the order was opened.
 */
module Andamento {
  import opened Wrappers
  import opened Records
  import opened Merge
  import opened Classifier

  /** A row of the in-progress table with its `TEMPO (D)` cell (`None` is NaN). */
  datatype AndamentoRow = AndamentoRow(row: MergedRow, tempoDias: Option<int>)

  const SecondsPerDay := 86400

  /** `(today - opening).days`: whole days, rounded down, possibly negative. */
  function DaysSince(opening: Instant, today: Instant): int
  {
    (today.seconds - opening.seconds) / SecondsPerDay
  }

  /**
   * `TEMPO (D)` after `max(x, 0)`: the day count clamped at 0. A row without a
   * parsable opening date has NaN, which `max(NaN, 0)` keeps.
   */
  function Tempo(row: MergedRow, today: Instant): (t: Option<int>)
    ensures t.Some? <==> row.openedAt.Some?
    ensures t.Some? ==> t.value >= 0
    ensures t.Some? ==> t.value >= DaysSince(row.openedAt.value, today)
    ensures t.Some? && DaysSince(row.openedAt.value, today) >= 0 ==>
      t.value == DaysSince(row.openedAt.value, today)
    ensures t.Some? && DaysSince(row.openedAt.value, today) < 0 ==> t.value == 0
  {
    match row.openedAt
    case None => None
    case Some(opening) =>
      var d := DaysSince(opening, today);
      Some(if d >= 0 then d else 0)
  }

  /** The page's row filter: a start date is present and a completion date is not. */
  predicate InProgress(row: MergedRow)
  {
    row.startedAt.Some? && row.finishedAt.None?
  }

  /** `df[df['datahorainicio'].notna() & df['datahorafim'].isna()]` with its `TEMPO (D)` column. */
  function AndamentoTable(rows: seq<MergedRow>, today: Instant): (r: seq<AndamentoRow>)
    ensures |r| <= |rows|
    ensures forall a :: a in r ==> a.row in rows && InProgress(a.row) && a.tempoDias == Tempo(a.row, today)
    ensures forall a :: a in r && a.tempoDias.Some? ==> a.tempoDias.value >= 0
  {
    if rows == [] then []
    else
      var rest := AndamentoTable(rows[1..], today);
      assert forall x :: x in rows[1..] ==> x in rows;
      if InProgress(rows[0]) then [AndamentoRow(rows[0], Tempo(rows[0], today))] + rest else rest
  }

  /** The rows of the in-progress table, in order. */
  function RowsOf(table: seq<AndamentoRow>): (r: seq<MergedRow>)
    ensures |r| == |table|
  {
    if table == [] then [] else [table[0].row] + RowsOf(table[1..])
  }

  /** Each row of `RowsOf(table)` is the merged row of the table's row at the same place. */
  lemma {:induction false} RowsOfAt(table: seq<AndamentoRow>, i: int)
    requires 0 <= i < |table|
    ensures RowsOf(table)[i] == table[i].row
  {
    if i > 0 {
      RowsOfAt(table[1..], i - 1);
    }
  }

  /** The rows of `rows` that `Classify` puts in situation `s`, in order. */
  function ClassifiedAs(rows: seq<MergedRow>, s: Situation): seq<MergedRow>
  {
    if rows == [] then []
    else (if Classify(rows[0]) == s then [rows[0]] else []) + ClassifiedAs(rows[1..], s)
  }

  /** The in-progress table holds exactly the rows classified ANDAMENTO, in the same order. */
  lemma {:induction false} AndamentoIsClassifiedAndamento(rows: seq<MergedRow>, today: Instant)
    ensures RowsOf(AndamentoTable(rows, today)) == ClassifiedAs(rows, Andamento)
  {
    if rows != [] {
      AndamentoIsClassifiedAndamento(rows[1..], today);
      var rest := AndamentoTable(rows[1..], today);
      if InProgress(rows[0]) {
        var t := [AndamentoRow(rows[0], Tempo(rows[0], today))] + rest;
        assert t[1..] == rest;
      }
    }
  }
}
