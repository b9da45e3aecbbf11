/**
 * The persistence gateway: a store holding `ultimaatualizacao` and
 * `detalhesOS`, updated in place by the two write operations and read by the
 * queries. Each operation is one transaction: when MySQL raises inside it, the
 * transaction rolls back and the tables are as they were before the call.
 */
module Database {
  import opened Wrappers
  import opened Records
  import opened Ordering
  import opened Tables

  class Store {
    /** `ultimaatualizacao`, keyed by `numeroos`. */
    var headers: map<int, OsFields>
    /** `detalhesOS`, in insertion order. */
    var details: seq<DetailRow>
    /** The next `AUTO_INCREMENT` value of `detalhesOS.id`. */
    var nextId: int

    /**
     * The table constraints: every detail references an existing header
     * (the foreign key), and ids are positive, below `nextId` and increase
     * with insertion order.
     */
    ghost predicate Valid()
      reads this
    {
      Consistent(headers, details, nextId)
    }

    /** Freshly created, empty tables. */
    constructor ()
      ensures Valid()
      ensures headers == map[] && details == [] && nextId == 1
    {
      headers := map[];
      details := [];
      nextId := 1;
    }

    /**
     * `inserir_os_lote`: upserts the batch and returns its length. An empty
     * batch returns 0 without touching the store. An item without `numeroos`
     * makes MySQL raise, and the whole batch is rolled back.
     */
    method InsertOsBatch(items: seq<OsItem>) returns (r: Result<nat, DbError>)
      requires Valid()
      modifies this
      ensures Valid()
      ensures r.Ok? <==> AllKeyed(items)
      ensures r.Ok? ==> r.value == |items| && headers == Upsert(old(headers), items)
      ensures r.Err? ==> r.error == NullPrimaryKey && headers == old(headers)
      ensures details == old(details) && nextId == old(nextId)
    {
      if |items| == 0 {
        return Ok(0);
      }
      var saved := headers;
      var count := 0;
      for i := 0 to |items|
        invariant count == i
        invariant AllKeyed(items[..i])
        invariant headers == Upsert(saved, items[..i])
        invariant saved.Keys <= headers.Keys
        invariant details == old(details) && nextId == old(nextId)
      {
        match items[i].numeroos
        case None =>
          headers := saved;
          return Err(NullPrimaryKey);
        case Some(n) =>
          assert items[..i + 1][..i] == items[..i];
          headers := headers[n := items[i].fields];
          count := count + 1;
      }
      assert items[..|items|] == items;
      r := Ok(count);
    }

    /**
     * `inserir_detalhes_os`: deletes the detail rows of `numeroos`, then
     * inserts one row per item, tagged with `numeroos` and not with the item's
     * own number; returns the number inserted. With no items it is a pure
     * delete returning 0. Inserting under an order without a header violates
     * the foreign key, and the delete is rolled back with it.
     */
    method InsertDetails(numeroos: int, items: seq<DetailItem>) returns (r: Result<nat, DbError>)
      requires Valid()
      modifies this
      ensures Valid()
      ensures r.Err? <==> |items| > 0 && numeroos !in headers
      ensures r.Ok? ==> r.value == |items|
      ensures r.Ok? ==> details == Replaced(old(details), numeroos, old(nextId), items)
      ensures r.Ok? ==> nextId == old(nextId) + |items|
      ensures r.Err? ==> r.error == ForeignKeyViolation && details == old(details) && nextId == old(nextId)
      ensures headers == old(headers)
    {
      var saved := details;
      details := Without(details, numeroos);
      WithoutConsistent(headers, saved, nextId, numeroos);
      if |items| == 0 {
        assert Tagged(nextId, numeroos, items) == [];
        assert details + [] == details;
        return Ok(0);
      }
      if numeroos !in headers {
        // the first INSERT violates the foreign key; the delete rolls back with it
        details := saved;
        return Err(ForeignKeyViolation);
      }
      InsertRows(numeroos, items);
      r := Ok(|items|);
    }

    /** The insert loop of `inserir_detalhes_os`: one row per item, with consecutive ids. */
    method InsertRows(numeroos: int, items: seq<DetailItem>)
      requires Valid() && numeroos in headers
      modifies this
      ensures Valid()
      ensures details == old(details) + Tagged(old(nextId), numeroos, items)
      ensures nextId == old(nextId) + |items| && headers == old(headers)
    {
      var firstId := nextId;
      for count := 0 to |items|
        invariant nextId == firstId + count
        invariant details == old(details) + Tagged(firstId, numeroos, items[..count])
        invariant headers == old(headers)
        invariant Valid()
      {
        AppendTagged(headers, old(details), numeroos, firstId, items, count, details);
        details := details + [DetailRow(nextId, numeroos, items[count].fields)];
        nextId := nextId + 1;
      }
      assert items[..|items|] == items;
    }

    /** The order numbers that have a detail row. */
    predicate HasDetails(n: int)
      reads this
    {
      exists i :: 0 <= i < |details| && details[i].numeroos == n
    }

    /**
     * `listar_numeroos_com_detalhes` (`SELECT DISTINCT`): every order number
     * appearing in the details, once. SQL leaves the order open; the model
     * lists them ascending.
     */
    function NumbersWithDetails(): (r: seq<int>)
      reads this
      ensures Ascending(r)
      ensures forall n :: n in r <==> HasDetails(n)
    {
      SortedKeys(NumbersIn(details))
    }

    /** `listar_os_sem_detalhes`: the left anti-join of the headers with the details. */
    function OsWithoutDetails(): (r: seq<int>)
      reads this
      ensures Ascending(r)
      ensures forall n :: n in r <==> n in headers && !HasDetails(n)
    {
      SortedKeys(headers.Keys - NumbersIn(details))
    }

    /** `os_precisa_detalhes`: the order has a header and no detail row yet. */
    function OsNeedsDetails(n: int): (r: bool)
      reads this
      ensures r <==> n in OsWithoutDetails()
      ensures n !in headers ==> !r
    {
      if n !in headers then false else !HasDetails(n)
    }

    /** `listar_todas_os_ultimaatualizacao` (`ORDER BY numeroos`). */
    function AllOsNumbers(): (r: seq<int>)
      reads this
      ensures Ascending(r)
      ensures forall n :: n in r <==> n in headers
      ensures |r| == |headers|
    {
      SortedKeys(headers.Keys)
    }

    /**
     * `buscar_os_para_dashboard`: one dict per header, in order number order;
     * each reads back as its stored row.
     */
    function OsForDashboard(): (r: seq<map<string, Value>>)
      reads this
      ensures |r| == |headers|
      ensures forall i :: 0 <= i < |r| ==>
        var n := AllOsNumbers()[i]; n in headers && HeaderOfDict(r[i]) == Some((n, headers[n]))
    {
      var keys := AllOsNumbers();
      assert forall i :: 0 <= i < |keys| ==> keys[i] in headers;
      var r := seq(|keys|, i requires 0 <= i < |keys| && keys[i] in headers reads this =>
        RowToDict(Some(HeaderTuple(keys[i], headers[keys[i]])), OsColumns));
      assert forall i :: 0 <= i < |keys| ==> HeaderOfDict(r[i]) == Some((keys[i], headers[keys[i]])) by {
        forall i | 0 <= i < |keys| ensures HeaderOfDict(r[i]) == Some((keys[i], headers[keys[i]])) {
          HeaderDictRoundTrip(keys[i], headers[keys[i]]);
        }
      }
      r
    }

    /**
     * The foreign key seen through the reads: every order listed as having
     * details is also listed among the headers.
     */
    lemma DetailedOrdersHaveHeaders()
      requires Valid()
      ensures forall n :: n in NumbersWithDetails() ==> n in AllOsNumbers()
    {
      forall n | n in NumbersWithDetails() ensures n in headers {
        assert HasDetails(n);
        var i :| 0 <= i < |details| && details[i].numeroos == n;
      }
    }

    /**
     * The detail query returns the rows of each order in the order they were
     * inserted: `ORDER BY numeroos, id` does not reorder them.
     */
    lemma DetailsReadInInsertionOrder(n: int)
      requires Valid()
      ensures RowsFor(OrderedDetails(), n) == RowsFor(details, n)
    {
      SortKeepsOrderRows(details, n);
    }

    /** The detail rows in `ORDER BY numeroos, id` order. */
    function OrderedDetails(): (r: seq<DetailRow>)
      reads this
      ensures RowsOrdered(r)
      ensures multiset(r) == multiset(details)
    {
      SortRows(details)
    }

    /**
     * `buscar_detalhes_para_dashboard`: one dict per detail row, ordered by
     * `(numeroos, id)`; each reads back as its row's number and columns.
     */
    function DetailsForDashboard(): (r: seq<map<string, Value>>)
      reads this
      ensures |r| == |details|
      ensures forall i :: 0 <= i < |r| ==>
        DetailOfDict(r[i]) == Some((OrderedDetails()[i].numeroos, OrderedDetails()[i].fields))
    {
      var rows := OrderedDetails();
      var r := seq(|rows|, i requires 0 <= i < |rows| => RowToDict(Some(DetailTuple(rows[i])), DetalhesColumns));
      assert forall i :: 0 <= i < |rows| ==> DetailOfDict(r[i]) == Some((rows[i].numeroos, rows[i].fields)) by {
        forall i | 0 <= i < |rows| ensures DetailOfDict(r[i]) == Some((rows[i].numeroos, rows[i].fields)) {
          DetailDictRoundTrip(rows[i]);
        }
      }
      r
    }
  }

  /**
   * The table constraints: every detail references an existing header (the
   * foreign key), and ids are positive, below the next auto-increment value,
   * and increase with insertion order.
   */
  ghost predicate Consistent(headers: map<int, OsFields>, details: seq<DetailRow>, nextId: int)
  {
    && 1 <= nextId
    && (forall i :: 0 <= i < |details| ==> details[i].numeroos in headers)
    && (forall i :: 0 <= i < |details| ==> 1 <= details[i].id < nextId)
    && IdsIncreasing(details)
  }

  /** Deleting the rows of one order keeps the constraints. */
  lemma WithoutConsistent(headers: map<int, OsFields>, details: seq<DetailRow>, nextId: int, n: int)
    requires Consistent(headers, details, nextId)
    ensures Consistent(headers, Without(details, n), nextId)
  {
    var w := Without(details, n);
    WithoutKeepsOrder(details, n);
    forall i | 0 <= i < |w| ensures w[i].numeroos in headers && 1 <= w[i].id < nextId {
      assert w[i] in details;
    }
  }

  /** Appending a row with the next id under an existing header keeps the constraints. */
  lemma AppendConsistent(headers: map<int, OsFields>, details: seq<DetailRow>, nextId: int, row: DetailRow)
    requires Consistent(headers, details, nextId)
    requires row.id == nextId && row.numeroos in headers
    ensures Consistent(headers, details + [row], nextId + 1)
  {
  }

  /** One step of the insert loop: the next item's row extends the table and keeps the constraints. */
  lemma AppendTagged(
    headers: map<int, OsFields>, prefix: seq<DetailRow>, n: int, firstId: int,
    items: seq<DetailItem>, count: nat, details: seq<DetailRow>)
    requires count < |items| && n in headers
    requires details == prefix + Tagged(firstId, n, items[..count])
    requires Consistent(headers, details, firstId + count)
    ensures details + [DetailRow(firstId + count, n, items[count].fields)]
      == prefix + Tagged(firstId, n, items[..count + 1])
    ensures Consistent(headers, details + [DetailRow(firstId + count, n, items[count].fields)], firstId + count + 1)
  {
    TaggedExtend(firstId, n, items, count);
    AppendConsistent(headers, details, firstId + count, DetailRow(firstId + count, n, items[count].fields));
  }

  /** Inserting one more item extends the inserted rows by one row with the next id. */
  lemma TaggedExtend(firstId: int, n: int, items: seq<DetailItem>, count: nat)
    requires count < |items|
    ensures Tagged(firstId, n, items[..count + 1])
      == Tagged(firstId, n, items[..count]) + [DetailRow(firstId + count, n, items[count].fields)]
  {
  }

  /** Deleting the rows of one order keeps the others in their order. */
  lemma {:induction false} WithoutKeepsOrder(rows: seq<DetailRow>, n: int)
    requires IdsIncreasing(rows)
    ensures IdsIncreasing(Without(rows, n))
  {
    if rows != [] {
      var tail := rows[1..];
      WithoutKeepsOrder(tail, n);
      var w := Without(tail, n);
      forall d | d in w ensures rows[0].id < d.id {
        var k :| 0 <= k < |tail| && tail[k] == d;
        assert tail[k] == rows[k + 1];
      }
    }
  }

  /**
   * After a successful `inserir_detalhes_os(n, items)`, the detail query
   * returns the rows of `n` carrying exactly the items' columns, in item order.
   */
  lemma ReplacedReadsBackInItemOrder(
    headers: map<int, OsFields>, rows: seq<DetailRow>, nextId: int, n: int, items: seq<DetailItem>)
    requires Consistent(headers, Replaced(rows, n, nextId, items), nextId + |items|)
    ensures FieldsOf(RowsFor(SortRows(Replaced(rows, n, nextId, items)), n)) == ItemFields(items)
  {
    SortKeepsOrderRows(Replaced(rows, n, nextId, items), n);
    ReplaceSemantics(rows, n, nextId, items);
  }
}
