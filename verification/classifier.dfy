/**
 * `classify_os_status`: the situation label of a merged work-order row,
 * decided by six rules in order, the first that matches wins.
 */
module Classifier {
  import opened Wrappers
  import opened PyText
  import opened Merge

  /** The six situations a row can be in. */
  datatype Situation =
    | ValorizadoEFinalizado
    | Andamento
    | Executado
    | Finalizada
    | EmBranco
    | Outro

  /** The label the dashboard shows for a situation. */
  function Label(s: Situation): string
  {
    match s
    case ValorizadoEFinalizado => "VALORIZADO E FINALIZADO"
    case Andamento => "ANDAMENTO"
    case Executado => "EXECUTADO"
    case Finalizada => "FINALIZADA"
    case EmBranco => "EM BRANCO"
    case Outro => "OUTRO"
  }

  /**
   * `str(status).strip().upper()`. A null or missing status never normalises
   * to FINALIZADA. An explicit null prints as "None", whose normal form is
   * "NONE" (lemma `NullStatusKey`); a missing key gives pandas' NaN, "NAN".
   * Both are represented by `None`.
   */
  function StatusKey(status: Option<string>): (r: string)
    ensures r == "FINALIZADA" <==> status.Some? && Normalise(status.value) == "FINALIZADA"
  {
    match status
    case None => "NONE"
    case Some(s) => Normalise(s)
  }

  /** The key of a null status is the normal form of Python's `str(None)`. */
  lemma NullStatusKey()
    ensures StatusKey(None) == Normalise("None")
    ensures StatusKey(None) != "FINALIZADA"
  {
    assert Strip("None") == "None";
  }

  /** The row's status reads FINALIZADA once stripped and upper-cased. */
  predicate IsFinalizada(row: MergedRow)
  {
    StatusKey(row.fields.status) == "FINALIZADA"
  }

  /**
   * The situation of a row. Each label is characterised on its own, so the
   * six conditions are pairwise exclusive and together cover every row.
   */
  function Classify(row: MergedRow): (r: Situation)
    ensures r == ValorizadoEFinalizado <==>
      row.valortotal > 0.0 && row.finishedAt.Some? && IsFinalizada(row)
    ensures r == Andamento <==> row.startedAt.Some? && row.finishedAt.None?
    ensures r == Executado <==>
      row.startedAt.None? && row.finishedAt.None? && row.valortotal > 0.0
    ensures r == Finalizada <==>
      row.finishedAt.Some? && IsFinalizada(row) && row.valortotal <= 0.0
    ensures r == EmBranco <==>
      row.startedAt.None? && row.finishedAt.None? && row.valortotal <= 0.0
    ensures r == Outro <==> row.finishedAt.Some? && !IsFinalizada(row)
  {
    var valorizado := row.valortotal > 0.0;
    var finalizada := row.finishedAt.Some? && IsFinalizada(row);
    if valorizado && finalizada then ValorizadoEFinalizado
    else if row.startedAt.Some? && row.finishedAt.None? then Andamento
    else if valorizado && row.finishedAt.None? then Executado
    else if finalizada then Finalizada
    else if row.startedAt.None? && row.finishedAt.None? then EmBranco
    else Outro
  }

  /** Distinct situations are shown under distinct labels. */
  lemma LabelsDistinct(a: Situation, b: Situation)
    requires a != b
    ensures Label(a) != Label(b)
  {
    assert Label(a)[0] != Label(b)[0] || |Label(a)| != |Label(b)| || Label(a)[1] != Label(b)[1];
  }
}
