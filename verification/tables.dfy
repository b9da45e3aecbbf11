/**
 * The two tables of the store as values: `ultimaatualizacao`, a map from
 * `numeroos` to the other columns, and `detalhesOS`, a sequence of rows in
 * insertion order, each with its auto-increment `id`. The functions here give
 * the state each gateway operation leaves and the rows each query returns.
 */
module Tables {
  import opened Wrappers
  import opened Records

  /** A row of `detalhesOS`. */
  datatype DetailRow = DetailRow(id: int, numeroos: int, fields: DetailFields)

  /** A cell as the driver returns it. */
  datatype Value = IntVal(i: int) | TextVal(s: string) | NullVal

  /** The errors MySQL raises inside a transaction, which then rolls back. */
  datatype DbError =
    | NullPrimaryKey      // an upserted item has no `numeroos`
    | ForeignKeyViolation // a detail references an order that has no header

  /** `OS_COLUMNS`, also the column order of `ultimaatualizacao`. */
  const OsColumns: seq<string> := [
    "numeroos", "datahoraos", "datahorainicio", "datahorafim",
    "placaequipamento", "marcaequipamento", "modeloequipamento", "hodometro",
    "titulomanutencao", "tipomanutencao", "status", "motoristaresponsavel",
    "mecanicoresponsavel", "descricaoos", "fornecedor", "lastupdate"]

  /** `DETALHES_COLUMNS`, the columns the detail query selects. */
  const DetalhesColumns: seq<string> := [
    "numeroos", "material", "quantidade", "valorunit", "valortotal", "quantidadeestoque"]

  // ---------------------------------------------------------------- upsert

  /**
   * `ultimaatualizacao` after upserting `batch` item by item: each
   * `INSERT ... ON DUPLICATE KEY UPDATE` overwrites every non-key column.
   */
  function Upsert(table: map<int, OsFields>, batch: seq<OsItem>): (r: map<int, OsFields>)
    requires AllKeyed(batch)
    ensures table.Keys <= r.Keys
    ensures forall i :: 0 <= i < |batch| ==> batch[i].numeroos.value in r
    ensures forall n :: n in r ==> n in table || exists i :: 0 <= i < |batch| && batch[i].numeroos == Some(n)
  {
    if batch == [] then table
    else
      var last := batch[|batch| - 1];
      Upsert(table, batch[..|batch| - 1])[last.numeroos.value := last.fields]
  }

  /** A batch applied to an empty table. */
  function BatchTable(batch: seq<OsItem>): map<int, OsFields>
    requires AllKeyed(batch)
  {
    Upsert(map[], batch)
  }

  /** Upserting a batch overrides the table with the batch's own table. */
  lemma {:induction false} UpsertOverrides(table: map<int, OsFields>, batch: seq<OsItem>)
    requires AllKeyed(batch)
    ensures Upsert(table, batch) == table + BatchTable(batch)
  {
    if batch != [] {
      var init := batch[..|batch| - 1];
      var last := batch[|batch| - 1];
      UpsertOverrides(table, init);
      UpsertOverrides(map[], init);
      assert map[] + BatchTable(init) == BatchTable(init);
    }
  }

  /** Upserting the same batch twice leaves the table it leaves once. */
  lemma UpsertIdempotent(table: map<int, OsFields>, batch: seq<OsItem>)
    requires AllKeyed(batch)
    ensures Upsert(Upsert(table, batch), batch) == Upsert(table, batch)
  {
    UpsertOverrides(table, batch);
    UpsertOverrides(Upsert(table, batch), batch);
    var b := BatchTable(batch);
    assert (table + b) + b == table + b;
  }

  /** After an upsert, an order number of the batch holds the fields of the batch's last item with that number. */
  lemma {:induction false} UpsertLastWins(table: map<int, OsFields>, batch: seq<OsItem>, i: int)
    requires AllKeyed(batch) && 0 <= i < |batch|
    requires forall j :: i < j < |batch| ==> batch[j].numeroos != batch[i].numeroos
    ensures batch[i].numeroos.value in Upsert(table, batch)
    ensures Upsert(table, batch)[batch[i].numeroos.value] == batch[i].fields
  {
    var init := batch[..|batch| - 1];
    if i < |init| {
      assert init[i] == batch[i];
      forall j | i < j < |init| ensures init[j].numeroos != init[i].numeroos { assert init[j] == batch[j]; }
      UpsertLastWins(table, init, i);
    }
  }

  /** An upsert leaves the rows of order numbers outside the batch as they were. */
  lemma {:induction false} UpsertUntouched(table: map<int, OsFields>, batch: seq<OsItem>, n: int)
    requires AllKeyed(batch)
    requires forall i :: 0 <= i < |batch| ==> batch[i].numeroos != Some(n)
    ensures n in Upsert(table, batch) <==> n in table
    ensures n in table ==> Upsert(table, batch)[n] == table[n]
  {
    if batch != [] {
      var init := batch[..|batch| - 1];
      forall i | 0 <= i < |init| ensures init[i].numeroos != Some(n) { assert init[i] == batch[i]; }
      UpsertUntouched(table, init, n);
    }
  }

  // ---------------------------------------------------------------- replace

  /** The rows of order `n`, in table order. */
  function RowsFor(rows: seq<DetailRow>, n: int): (r: seq<DetailRow>)
    ensures forall d :: d in r <==> d in rows && d.numeroos == n
  {
    if rows == [] then []
    else (if rows[0].numeroos == n then [rows[0]] else []) + RowsFor(rows[1..], n)
  }

  /** `DELETE FROM detalhesOS WHERE numeroos = n`. */
  function Without(rows: seq<DetailRow>, n: int): (r: seq<DetailRow>)
    ensures forall d :: d in r <==> d in rows && d.numeroos != n
  {
    if rows == [] then []
    else
      assert forall d :: d in rows <==> d == rows[0] || d in rows[1..];
      (if rows[0].numeroos != n then [rows[0]] else []) + Without(rows[1..], n)
  }

  /** The rows inserted for `items` under order `n`, with ids from `firstId` on. */
  function Tagged(firstId: int, n: int, items: seq<DetailItem>): (r: seq<DetailRow>)
  {
    seq(|items|, i requires 0 <= i < |items| => DetailRow(firstId + i, n, items[i].fields))
  }

  /** `detalhesOS` after `inserir_detalhes_os(n, items)` succeeds: delete, then insert. */
  function Replaced(rows: seq<DetailRow>, n: int, firstId: int, items: seq<DetailItem>): (r: seq<DetailRow>)
    ensures |r| == |Without(rows, n)| + |items|
    ensures forall d :: d in r && d.numeroos != n ==> d in rows
    ensures forall d :: d in rows && d.numeroos != n ==> d in r
    ensures forall d :: d in r && d.numeroos == n ==>
      firstId <= d.id < firstId + |items| && d.fields == items[d.id - firstId].fields
  {
    Without(rows, n) + Tagged(firstId, n, items)
  }

  /** The column values of a sequence of rows. */
  function FieldsOf(rows: seq<DetailRow>): seq<DetailFields>
  {
    seq(|rows|, i requires 0 <= i < |rows| => rows[i].fields)
  }

  /** The column values of a sequence of items. */
  function ItemFields(items: seq<DetailItem>): seq<DetailFields>
  {
    seq(|items|, i requires 0 <= i < |items| => items[i].fields)
  }

  lemma {:induction false} RowsForConcat(a: seq<DetailRow>, b: seq<DetailRow>, n: int)
    ensures RowsFor(a + b, n) == RowsFor(a, n) + RowsFor(b, n)
  {
    if a != [] {
      assert (a + b)[1..] == a[1..] + b;
      RowsForConcat(a[1..], b, n);
    } else {
      assert a + b == b;
    }
  }

  lemma {:induction false} RowsForAll(rows: seq<DetailRow>, n: int)
    requires forall i :: 0 <= i < |rows| ==> rows[i].numeroos == n
    ensures RowsFor(rows, n) == rows
  {
    if rows != [] { RowsForAll(rows[1..], n); }
  }

  lemma {:induction false} RowsForNone(rows: seq<DetailRow>, n: int)
    requires forall i :: 0 <= i < |rows| ==> rows[i].numeroos != n
    ensures RowsFor(rows, n) == []
  {
    if rows != [] { RowsForNone(rows[1..], n); }
  }

  lemma {:induction false} RowsForWithout(rows: seq<DetailRow>, n: int, m: int)
    ensures RowsFor(Without(rows, n), m) == if m == n then [] else RowsFor(rows, m)
  {
    if rows != [] {
      RowsForWithout(rows[1..], n, m);
      var head := if rows[0].numeroos != n then [rows[0]] else [];
      RowsForConcat(head, Without(rows[1..], n), m);
    }
  }

  /**
   * Replace semantics: afterwards the rows of `n` carry exactly the items'
   * columns, in order, each tagged with `n`; the rows of every other order are
   * unchanged; an empty list leaves `n` without rows.
   */
  lemma ReplaceSemantics(rows: seq<DetailRow>, n: int, firstId: int, items: seq<DetailItem>)
    ensures FieldsOf(RowsFor(Replaced(rows, n, firstId, items), n)) == ItemFields(items)
    ensures forall d :: d in RowsFor(Replaced(rows, n, firstId, items), n) ==> d.numeroos == n
    ensures forall m :: m != n ==> RowsFor(Replaced(rows, n, firstId, items), m) == RowsFor(rows, m)
    ensures items == [] ==> RowsFor(Replaced(rows, n, firstId, items), n) == []
  {
    var t := Tagged(firstId, n, items);
    RowsForConcat(Without(rows, n), t, n);
    RowsForWithout(rows, n, n);
    RowsForAll(t, n);
    forall m | m != n
      ensures RowsFor(Replaced(rows, n, firstId, items), m) == RowsFor(rows, m)
    {
      RowsForConcat(Without(rows, n), t, m);
      RowsForWithout(rows, n, m);
      RowsForNone(t, m);
    }
  }

  // ---------------------------------------------------------------- reads

  /** The order numbers that have at least one detail row. */
  function NumbersIn(rows: seq<DetailRow>): set<int>
  {
    set i | 0 <= i < |rows| :: rows[i].numeroos
  }

  /** `ORDER BY numeroos, id`: `a` may precede `b`. */
  predicate RowLe(a: DetailRow, b: DetailRow)
  {
    a.numeroos < b.numeroos || (a.numeroos == b.numeroos && a.id <= b.id)
  }

  predicate RowsOrdered(rows: seq<DetailRow>)
  {
    forall i :: 0 < i < |rows| ==> RowLe(rows[i - 1], rows[i])
  }

  /** `row` inserted into an ordered sequence at its place. */
  function InsertRow(row: DetailRow, rows: seq<DetailRow>): (r: seq<DetailRow>)
    requires RowsOrdered(rows)
    ensures RowsOrdered(r)
    ensures multiset(r) == multiset(rows) + multiset{row}
    ensures r[0] == row || (rows != [] && r[0] == rows[0])
  {
    if rows == [] || RowLe(row, rows[0]) then [row] + rows
    else
      var rest := InsertRow(row, rows[1..]);
      assert rows == [rows[0]] + rows[1..];
      [rows[0]] + rest
  }

  /** The rows sorted by `(numeroos, id)`: an ordered permutation of the table. */
  function SortRows(rows: seq<DetailRow>): (r: seq<DetailRow>)
    ensures RowsOrdered(r)
    ensures multiset(r) == multiset(rows)
    ensures |r| == |rows|
  {
    if rows == [] then []
    else
      assert rows == [rows[0]] + rows[1..];
      var r := InsertRow(rows[0], SortRows(rows[1..]));
      assert |r| == |multiset(r)|;
      r
  }

  /** Ids strictly increase along the sequence: the insertion order of `detalhesOS`. */
  predicate IdsIncreasing(rows: seq<DetailRow>)
  {
    forall i, j :: 0 <= i < j < |rows| ==> rows[i].id < rows[j].id
  }

  /** Every row may precede every later one under `ORDER BY numeroos, id`. */
  predicate RowsChained(rows: seq<DetailRow>)
  {
    forall i, j :: 0 <= i < j < |rows| ==> RowLe(rows[i], rows[j])
  }

  /** An order that holds between neighbours holds between any two rows. */
  lemma {:induction false} OrderedChained(rows: seq<DetailRow>)
    requires RowsOrdered(rows)
    ensures RowsChained(rows)
  {
    if |rows| > 1 {
      var tail := rows[1..];
      assert RowsOrdered(tail) by {
        forall i | 0 < i < |tail| ensures RowLe(tail[i - 1], tail[i]) {
          assert tail[i - 1] == rows[i] && tail[i] == rows[i + 1];
        }
      }
      OrderedChained(tail);
      forall i, j | 0 <= i < j < |rows| ensures RowLe(rows[i], rows[j]) {
        if i == 0 {
          assert RowLe(rows[0], rows[1]);
          if j > 1 {
            assert RowLe(tail[0], tail[j - 1]);
          }
        } else {
          assert RowLe(tail[i - 1], tail[j - 1]);
        }
      }
    }
  }

  /** Selecting the rows of one order keeps their ids increasing. */
  lemma {:induction false} RowsForIdsIncreasing(rows: seq<DetailRow>, n: int)
    requires IdsIncreasing(rows)
    ensures IdsIncreasing(RowsFor(rows, n))
  {
    if rows != [] {
      var tail := rows[1..];
      RowsForIdsIncreasing(tail, n);
      forall d | d in RowsFor(tail, n) ensures rows[0].id < d.id {
        var k :| 0 <= k < |tail| && tail[k] == d;
        assert tail[k] == rows[k + 1];
      }
    }
  }

  /** Selecting the rows of one order keeps them chained. */
  lemma {:induction false} RowsForChained(rows: seq<DetailRow>, n: int)
    requires RowsChained(rows)
    ensures RowsChained(RowsFor(rows, n))
  {
    if rows != [] {
      var tail := rows[1..];
      RowsForChained(tail, n);
      forall d | d in RowsFor(tail, n) ensures RowLe(rows[0], d) {
        var k :| 0 <= k < |tail| && tail[k] == d;
        assert tail[k] == rows[k + 1];
      }
    }
  }

  /** The rows of one order, counted with multiplicity, depend only on the table's multiset. */
  lemma {:induction false} RowsForMultiset(rows: seq<DetailRow>, n: int)
    ensures forall e :: multiset(RowsFor(rows, n))[e] == if e.numeroos == n then multiset(rows)[e] else 0
  {
    if rows != [] {
      RowsForMultiset(rows[1..], n);
      assert rows == [rows[0]] + rows[1..];
    }
  }

  /** Two row sequences ordered by id with the same rows start with the same row. */
  lemma SameFirstRow(a: seq<DetailRow>, b: seq<DetailRow>)
    requires IdsIncreasing(a) && a != [] && b != []
    requires forall i, j :: 0 <= i < j < |b| ==> b[i].id <= b[j].id
    requires multiset(a) == multiset(b)
    ensures a[0] == b[0]
    ensures multiset(a[1..]) == multiset(b[1..])
  {
    assert b[0] in multiset(a);
    var k :| 0 <= k < |a| && a[k] == b[0];
    assert a[0] in multiset(b);
    var m :| 0 <= m < |b| && b[m] == a[0];
    assert b[0].id <= b[m].id;
    assert k == 0;
    assert a == [a[0]] + a[1..];
    assert b == [b[0]] + b[1..];
    forall e ensures multiset(a[1..])[e] == multiset(b[1..])[e] {
      assert multiset(a)[e] == multiset(b)[e];
    }
  }

  /** Two row sequences ordered by id with the same rows are equal. */
  lemma {:induction false} SameRowsByIds(a: seq<DetailRow>, b: seq<DetailRow>)
    requires IdsIncreasing(a)
    requires forall i, j :: 0 <= i < j < |b| ==> b[i].id <= b[j].id
    requires multiset(a) == multiset(b)
    ensures a == b
  {
    assert |a| == |multiset(a)| == |multiset(b)| == |b|;
    if a != [] {
      SameFirstRow(a, b);
      assert IdsIncreasing(a[1..]) by {
        forall i, j | 0 <= i < j < |a| - 1 ensures a[1..][i].id < a[1..][j].id {
          assert a[1..][i] == a[i + 1] && a[1..][j] == a[j + 1];
        }
      }
      SameRowsByIds(a[1..], b[1..]);
      assert a == [a[0]] + a[1..] && b == [b[0]] + b[1..];
    }
  }

  /**
   * Among the rows of one order, `ORDER BY numeroos, id` is the insertion
   * order: sorting the table does not reorder them.
   */
  lemma SortKeepsOrderRows(rows: seq<DetailRow>, n: int)
    requires IdsIncreasing(rows)
    ensures RowsFor(SortRows(rows), n) == RowsFor(rows, n)
  {
    var sorted := SortRows(rows);
    var a := RowsFor(rows, n);
    var b := RowsFor(sorted, n);
    RowsForIdsIncreasing(rows, n);
    OrderedChained(sorted);
    RowsForChained(sorted, n);
    RowsForMultiset(rows, n);
    RowsForMultiset(sorted, n);
    assert multiset(a) == multiset(b);
    forall i, j | 0 <= i < j < |b| ensures b[i].id <= b[j].id {
      assert b[i] in b && b[j] in b;
      assert RowLe(b[i], b[j]);
    }
    SameRowsByIds(a, b);
  }

  // ---------------------------------------------------------------- row to dict

  /** `dict(zip(columns, values))` over the first `n` pairs: a later duplicate column wins. */
  function Zip(columns: seq<string>, values: seq<Value>, n: nat): (d: map<string, Value>)
    requires n <= |columns| && n <= |values|
    ensures d.Keys == set i | 0 <= i < n :: columns[i]
    ensures forall i :: 0 <= i < n && (forall j :: i < j < n ==> columns[j] != columns[i]) ==>
      d[columns[i]] == values[i]
  {
    if n == 0 then map[]
    else
      var prev := Zip(columns, values, n - 1);
      assert (set i | 0 <= i < n :: columns[i]) == (set i | 0 <= i < n - 1 :: columns[i]) + {columns[n - 1]};
      prev[columns[n - 1] := values[n - 1]]
  }

  /** `_row_to_dict`: no row gives the empty dict; otherwise columns zipped with values. */
  function RowToDict(row: Option<seq<Value>>, columns: seq<string>): (d: map<string, Value>)
    ensures row.None? ==> d == map[]
    ensures row.Some? ==> d.Keys == set i | 0 <= i < |columns| && i < |row.value| :: columns[i]
    ensures row.Some? ==> forall i ::
      (0 <= i < |columns| && i < |row.value| &&
       forall j :: i < j < |columns| && j < |row.value| ==> columns[j] != columns[i]) ==>
      d[columns[i]] == row.value[i]
  {
    match row
    case None => map[]
    case Some(values) => Zip(columns, values, if |columns| <= |values| then |columns| else |values|)
  }

  /** A nullable text column as a cell. */
  function Cell(v: Option<string>): Value
  {
    match v
    case None => NullVal
    case Some(s) => TextVal(s)
  }

  /** A cell that holds text or null, as every non-key column does. */
  predicate IsTextCell(v: Value)
  {
    !v.IntVal?
  }

  /** A text or null cell read back as a nullable text column. */
  function TextOf(v: Value): Option<string>
  {
    match v
    case TextVal(s) => Some(s)
    case _ => None
  }

  /** The tuple `SELECT *` returns for a header row. */
  function HeaderTuple(n: int, f: OsFields): seq<Value>
  {
    var cells := HeaderCells(f);
    [IntVal(n)] + seq(|cells|, k requires 0 <= k < |cells| => Cell(cells[k]))
  }

  /** The non-key columns of a header, in table order. */
  function HeaderCells(f: OsFields): seq<Option<string>>
  {
    [f.datahoraos, f.datahorainicio, f.datahorafim, f.placaequipamento, f.marcaequipamento,
     f.modeloequipamento, f.hodometro, f.titulomanutencao, f.tipomanutencao, f.status,
     f.motoristaresponsavel, f.mecanicoresponsavel, f.descricaoos, f.fornecedor, f.lastupdate]
  }

  /** The tuple the detail query returns for a detail row (the `id` is not selected). */
  function DetailTuple(row: DetailRow): seq<Value>
  {
    [IntVal(row.numeroos), Cell(row.fields.material), Cell(row.fields.quantidade),
     Cell(row.fields.valorunit), Cell(row.fields.valortotal), Cell(row.fields.quantidadeestoque)]
  }

  /** Reads a header back from the cells of its tuple, position by position. */
  function HeaderOfTuple(t: seq<Value>): Option<(int, OsFields)>
  {
    if |t| != 16 || !t[0].IntVal? || exists k :: 1 <= k < 16 && !IsTextCell(t[k]) then None
    else
      Some((t[0].i, OsFields(TextOf(t[1]), TextOf(t[2]), TextOf(t[3]),
        TextOf(t[4]), TextOf(t[5]), TextOf(t[6]), TextOf(t[7]),
        TextOf(t[8]), TextOf(t[9]), TextOf(t[10]), TextOf(t[11]),
        TextOf(t[12]), TextOf(t[13]), TextOf(t[14]), TextOf(t[15]))))
  }

  /** Reads a header back from a dict: the value under each column name, in table order. */
  function HeaderOfDict(d: map<string, Value>): Option<(int, OsFields)>
  {
    if forall k :: 0 <= k < |OsColumns| ==> OsColumns[k] in d then
      HeaderOfTuple(seq(|OsColumns|, k requires 0 <= k < |OsColumns| => d[OsColumns[k]]))
    else None
  }

  /** The column names of `ultimaatualizacao` are pairwise distinct. */
  lemma OsColumnsDistinct()
    ensures forall i, j :: 0 <= i < j < |OsColumns| ==> OsColumns[i] != OsColumns[j]
  {
    forall i, j | 0 <= i < j < |OsColumns| ensures OsColumns[i] != OsColumns[j] {
      var a, b := OsColumns[i], OsColumns[j];
      assert |a| != |b| || a[0] != b[0] || a[1] != b[1] || a[2] != b[2];
    }
  }

  lemma TupleRoundTrip(n: int, f: OsFields)
    ensures HeaderOfTuple(HeaderTuple(n, f)) == Some((n, f))
  {
    var t := HeaderTuple(n, f);
    var cells := HeaderCells(f);
    forall k | 1 <= k < 16 ensures IsTextCell(t[k]) {
      assert t[k] == Cell(cells[k - 1]);
    }
  }

  /** The dict of a header row holds each column under its name: it reads back as the stored row. */
  lemma HeaderDictRoundTrip(n: int, f: OsFields)
    ensures HeaderOfDict(RowToDict(Some(HeaderTuple(n, f)), OsColumns)) == Some((n, f))
  {
    var t := HeaderTuple(n, f);
    var d := RowToDict(Some(t), OsColumns);
    OsColumnsDistinct();
    assert d == Zip(OsColumns, t, 16);
    forall k | 0 <= k < 16 ensures OsColumns[k] in d && d[OsColumns[k]] == t[k] {
    }
    assert seq(|OsColumns|, k requires 0 <= k < |OsColumns| => d[OsColumns[k]]) == t;
    TupleRoundTrip(n, f);
  }

  /** Reads a detail back from the cells of its tuple, position by position. */
  function DetailOfTuple(t: seq<Value>): Option<(int, DetailFields)>
  {
    if |t| != 6 || !t[0].IntVal? || exists k :: 1 <= k < 6 && !IsTextCell(t[k]) then None
    else
      Some((t[0].i, DetailFields(TextOf(t[1]), TextOf(t[2]), TextOf(t[3]), TextOf(t[4]), TextOf(t[5]))))
  }

  /** Reads a detail back from a dict: the value under each selected column name. */
  function DetailOfDict(d: map<string, Value>): Option<(int, DetailFields)>
  {
    if forall k :: 0 <= k < |DetalhesColumns| ==> DetalhesColumns[k] in d then
      DetailOfTuple(seq(|DetalhesColumns|, k requires 0 <= k < |DetalhesColumns| => d[DetalhesColumns[k]]))
    else None
  }

  /** The selected column names of `detalhesOS` are pairwise distinct. */
  lemma DetalhesColumnsDistinct()
    ensures forall i, j :: 0 <= i < j < |DetalhesColumns| ==> DetalhesColumns[i] != DetalhesColumns[j]
  {
    forall i, j | 0 <= i < j < |DetalhesColumns| ensures DetalhesColumns[i] != DetalhesColumns[j] {
      var a, b := DetalhesColumns[i], DetalhesColumns[j];
      assert |a| != |b| || a[0] != b[0];
    }
  }

  lemma DetailTupleRoundTrip(row: DetailRow)
    ensures DetailOfTuple(DetailTuple(row)) == Some((row.numeroos, row.fields))
  {
    var t := DetailTuple(row);
    forall k | 1 <= k < 6 ensures IsTextCell(t[k]) { }
  }

  /** The dict of a detail row holds each selected column under its name. */
  lemma DetailDictRoundTrip(row: DetailRow)
    ensures DetailOfDict(RowToDict(Some(DetailTuple(row)), DetalhesColumns)) == Some((row.numeroos, row.fields))
  {
    var t := DetailTuple(row);
    var d := RowToDict(Some(t), DetalhesColumns);
    DetalhesColumnsDistinct();
    forall k | 0 <= k < 6 ensures DetalhesColumns[k] in d && d[DetalhesColumns[k]] == t[k] {
    }
    assert seq(|DetalhesColumns|, k requires 0 <= k < |DetalhesColumns| => d[DetalhesColumns[k]]) == t;
    DetailTupleRoundTrip(row);
  }
}
