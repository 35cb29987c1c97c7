/**
 * The two SQLite tables (`intake_form`, `certification_quiz`) seen as
 * append-only tables: a sequence of rows in insertion order and the
 * AUTOINCREMENT counter that hands out the next id.  No route updates or
 * deletes a row, so the only state change is "append one row with a fresh id".
 */
module Store {
  import opened JsValues

  /** A stored row: the id the table assigned and the columns written at insert. */
  datatype Row<R> = Row(id: int, data: R)

  /** Ids strictly increase along the table, i.e. in insertion order. */
  ghost predicate IdsAscending<R>(rows: seq<Row<R>>) {
    forall i, j :: 0 <= i < j < |rows| ==> rows[i].id < rows[j].id
  }

  /** Ids strictly decrease along the sequence (`ORDER BY id DESC`). */
  ghost predicate IdsDescending<R>(rows: seq<Row<R>>) {
    forall i, j :: 0 <= i < j < |rows| ==> rows[i].id > rows[j].id
  }

  /** No two rows share an id. */
  ghost predicate DistinctIds<R>(rows: seq<Row<R>>) {
    forall i, j :: 0 <= i < j < |rows| ==> rows[i].id != rows[j].id
  }

  /** Position of the first row carrying `id`, or `|rows|` when there is none. */
  function FirstIndexOf<R>(rows: seq<Row<R>>, id: int): (k: nat)
    ensures k <= |rows|
    ensures forall j :: 0 <= j < k ==> rows[j].id != id
    ensures k < |rows| ==> rows[k].id == id
  {
    if rows == [] then 0
    else if rows[0].id == id then 0
    else 1 + FirstIndexOf(rows[1..], id)
  }

  /** The first row whose id is `id`, as `Array.prototype.find` or a lookup by key returns it. */
  function FindById<R>(rows: seq<Row<R>>, id: int): Option<Row<R>> {
    var k := FirstIndexOf(rows, id);
    if k < |rows| then Some(rows[k]) else None
  }

  /** `FindById` finds the first row with the id, and fails only when no row has it. */
  lemma FindByIdSpec<R>(rows: seq<Row<R>>, id: int)
    ensures FindById(rows, id).None? <==> forall k :: 0 <= k < |rows| ==> rows[k].id != id
    ensures FindById(rows, id).Some? ==>
      exists k :: 0 <= k < |rows| && rows[k] == FindById(rows, id).value && rows[k].id == id
        && forall j :: 0 <= j < k ==> rows[j].id != id
  {
    var k := FirstIndexOf(rows, id);
    if k < |rows| {
      assert rows[k] == FindById(rows, id).value;
    }
  }

  /** With unique ids, the row found for an id is the one row that carries it. */
  lemma FindByIdUnique<R>(rows: seq<Row<R>>, id: int, k: int)
    requires DistinctIds(rows)
    requires 0 <= k < |rows| && rows[k].id == id
    ensures FindById(rows, id) == Some(rows[k])
  {
    assert FirstIndexOf(rows, id) == k;
  }

  /** The rows in the opposite order. */
  function Reverse<R>(rows: seq<Row<R>>): (r: seq<Row<R>>)
    ensures |r| == |rows|
    ensures forall k :: 0 <= k < |rows| ==> r[k] == rows[|rows| - 1 - k]
  {
    if rows == [] then [] else Reverse(rows[1..]) + [rows[0]]
  }

  /** An append-only table with an AUTOINCREMENT primary key. */
  class Table<R> {
    var rows: seq<Row<R>>
    var nextId: int

    /** Every id is positive, below the counter, and ids grow in insertion order. */
    ghost predicate Valid()
      reads this
    {
      && nextId >= 1
      && IdsAscending(rows)
      && (forall k :: 0 <= k < |rows| ==> 1 <= rows[k].id < nextId)
    }

    /** A freshly created table: no rows, the first id handed out is 1. */
    constructor ()
      ensures Valid()
      ensures rows == [] && nextId == 1
    {
      rows := [];
      nextId := 1;
    }

    /** INSERT: appends one row under a fresh id and returns that id; earlier rows stay as they were. */
    method Insert(data: R) returns (id: int)
      requires Valid()
      modifies this
      ensures Valid()
      ensures id == old(nextId) && nextId == id + 1
      ensures rows == old(rows) + [Row(id, data)]
      ensures forall k :: 0 <= k < |old(rows)| ==> old(rows)[k].id < id
    {
      id := nextId;
      rows := rows + [Row(id, data)];
      nextId := nextId + 1;
    }

    /** `SELECT * ... WHERE id = ?`: the row with that id, or `None` when no row has it. */
    function Lookup(id: int): (r: Option<Row<R>>)
      reads this
      requires Valid()
      ensures r.None? <==> forall k :: 0 <= k < |rows| ==> rows[k].id != id
      ensures forall k :: 0 <= k < |rows| && rows[k].id == id ==> r == Some(rows[k])
    {
      FindByIdSpec(rows, id);
      forall k | 0 <= k < |rows| && rows[k].id == id
        ensures FindById(rows, id) == Some(rows[k])
      {
        FindByIdUnique(rows, id, k);
      }
      FindById(rows, id)
    }

    /** `SELECT * ... ORDER BY id DESC`: every stored row, newest id first. */
    function NewestFirst(): (r: seq<Row<R>>)
      reads this
      requires Valid()
      ensures |r| == |rows|
      ensures forall k :: 0 <= k < |rows| ==> r[k] == rows[|rows| - 1 - k]
      ensures IdsDescending(r)
    {
      Reverse(rows)
    }
  }
}
