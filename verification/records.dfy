/**
 * The records the maintenance API returns and the store keeps.
 *
 * An API record arrives as a JSON object. Each field that may be null or missing
 * is an `Option`; every text column is a `string`.
 */
module Records {
  import opened Wrappers

  /** The non-key columns of a work order ("OS"), in table order after `numeroos`. */
  datatype OsFields = OsFields(
    datahoraos: Option<string>,
    datahorainicio: Option<string>,
    datahorafim: Option<string>,
    placaequipamento: Option<string>,
    marcaequipamento: Option<string>,
    modeloequipamento: Option<string>,
    hodometro: Option<string>,
    titulomanutencao: Option<string>,
    tipomanutencao: Option<string>,
    status: Option<string>,
    motoristaresponsavel: Option<string>,
    mecanicoresponsavel: Option<string>,
    descricaoos: Option<string>,
    fornecedor: Option<string>,
    lastupdate: Option<string>)

  /** A work-order header as the API returns it; its order number may be missing. */
  datatype OsItem = OsItem(numeroos: Option<int>, fields: OsFields)

  /** The material/cost columns of a detail line, after `numeroos`. */
  datatype DetailFields = DetailFields(
    material: Option<string>,
    quantidade: Option<string>,
    valorunit: Option<string>,
    valortotal: Option<string>,
    quantidadeestoque: Option<string>)

  /** A detail line as the API returns it. */
  datatype DetailItem = DetailItem(numeroos: Option<int>, fields: DetailFields)

  /**
   * One response of the per-order detail endpoint. `data` is the response's
   * `data` list; a missing or null `data` is the empty list, and a null entry
   * of the list is `None`.
   */
  datatype DetailPayload = DetailPayload(data: seq<Option<DetailItem>>)

  /** A parsed timestamp, in seconds. */
  datatype Instant = Instant(seconds: int)

  /** True when every item of a batch carries an order number. */
  predicate AllKeyed(items: seq<OsItem>)
  {
    forall i :: 0 <= i < |items| ==> items[i].numeroos.Some?
  }
}
