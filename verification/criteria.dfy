/**
 * `os_atende_criterios`: which work orders the gateway persists, and how that
 * relates to the situation the dashboard later shows for them.
 */
module Criteria {
  import opened Wrappers
  import opened Records
  import opened PyText
  import opened Merge
  import opened Classifier

  /** A date field counts as filled when it is non-null and not blank once stripped. */
  predicate Filled(v: Option<string>)
  {
    v.Some? && Strip(v.value) != ""
  }

  /**
   * An order qualifies when its status, a null status read as "", is
   * FINALIZADA once stripped and upper-cased, and both its start and its
   * completion dates are filled.
   */
  function MeetsCriteria(item: OsItem): (r: bool)
    ensures r <==>
      && Normalise(match item.fields.status case None => "" case Some(s) => s) == "FINALIZADA"
      && item.fields.datahorainicio.Some? && !IsBlank(item.fields.datahorainicio.value)
      && item.fields.datahorafim.Some? && !IsBlank(item.fields.datahorafim.value)
  {
    var status := Normalise(match item.fields.status case None => "" case Some(s) => s);
    status == "FINALIZADA" && Filled(item.fields.datahorainicio) && Filled(item.fields.datahorafim)
  }

  /**
   * A qualifying order whose completion date parses is shown as
   * VALORIZADO E FINALIZADO when its total is positive and as FINALIZADA otherwise.
   */
  lemma QualifyingOrderSituation(item: OsItem, total: real, parse: string -> Option<Instant>)
    requires item.numeroos.Some? && MeetsCriteria(item)
    requires parse(item.fields.datahorafim.value).Some?
    ensures Classify(ToMergedRow(item, total, parse))
      == if total > 0.0 then ValorizadoEFinalizado else Finalizada
  {
    var row := ToMergedRow(item, total, parse);
    assert Normalise("") == "";
    assert row.finishedAt.Some?;
    assert IsFinalizada(row);
  }
}
