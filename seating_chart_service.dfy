/** The seating-chart service: one module-level chart object (its `tables` and
    `unassignedGuests` arrays plus any other top-level fields), replaced whole by
    `updateSeatingChart`, grown by `addTable` and shrunk by `deleteTable`. */
module SeatingChartService {
  import opened Common
  import opened Records
  import Text
  import ListStore

  /** The stored chart. `fields` holds its top-level fields other than the two arrays. */
  datatype Chart = Chart(fields: Record, tables: seq<Record>, unassignedGuests: seq<Record>)

  /** A chart as a caller passes it to `updateSeatingChart`. `tables` is `None` when
      that field is not an array; `unassignedGuests` is `None` when it is absent or falsy. */
  datatype ChartInput = ChartInput(fields: Record, tables: Option<seq<Record>>, unassignedGuests: Option<seq<Record>>)

  const InvalidChart := "Invalid seating chart data"
  const InvalidTableId := "Invalid table ID"
  const TableNotFound := "Table not found"

  /** `{ ...table, Id: parseInt(table.Id), number: parseInt(table.number) }` */
  function Normalise(table: Record): (r: Record)
    ensures Field(r, "Id") == Some(ParseInt(Field(table, "Id")))
    ensures Field(r, "number") == Some(ParseInt(Field(table, "number")))
    ensures forall k :: k in table && k != "Id" && k != "number" ==> k in r && r[k] == table[k]
  {
    WithIdAndNumber(table, ParseInt(Field(table, "Id")), ParseInt(Field(table, "number")))
  }

  /** The record with its `Id` and `number` fields set, every other field kept. */
  function WithIdAndNumber(table: Record, id: Value, number: Value): (r: Record)
    ensures Field(r, "Id") == Some(id) && Field(r, "number") == Some(number)
    ensures forall k :: k in table && k != "Id" && k != "number" ==> k in r && r[k] == table[k]
  {
    assert "Id" != "number";
    table["Id" := id]["number" := number]
  }

  /** The chart `updateSeatingChart` stores for valid input. */
  function Normalised(input: ChartInput): (c: Chart)
    requires input.tables.Some?
    ensures c.fields == input.fields
    ensures |c.tables| == |input.tables.value|
    ensures forall i :: 0 <= i < |c.tables| ==> c.tables[i] == Normalise(input.tables.value[i])
    ensures c.unassignedGuests == if input.unassignedGuests.Some? then input.unassignedGuests.value else []
  {
    Chart(input.fields,
          Map(input.tables.value, Normalise),
          if input.unassignedGuests.Some? then input.unassignedGuests.value else [])
  }

  /** `Math.max(...tables.map(t => t[key]), 0) + 1`: one more than the largest value of
      the field, or 1 for no tables; `NaN` when some value is not a number. */
  function NextValue(tables: seq<Record>, key: string): (v: Value)
    ensures v.Num? <==> forall i :: 0 <= i < |tables| ==> ToNumber(Field(tables[i], key)).Num?
    ensures v.Num? ==> v.n >= 1 && forall i :: 0 <= i < |tables| ==> ToNumber(Field(tables[i], key)).n < v.n
    ensures v.Num? ==> v.n == 1 || exists i :: 0 <= i < |tables| && ToNumber(Field(tables[i], key)) == Num(v.n - 1)
  {
    var vals := Map(tables, (t: Record) => ToNumber(Field(t, key)));
    assert forall i :: 0 <= i < |tables| ==> vals[i] == ToNumber(Field(tables[i], key));
    PlusOne(MaxWithZero(vals))
  }

  /** The defaults of a new table: at (200, 200), 120 by 120, round, eight seats. */
  function DefaultTable(id: Value, number: Value): (r: Record)
    ensures r.Keys == {"Id", "number", "x", "y", "width", "height", "shape", "capacity"}
    ensures r["Id"] == id && r["number"] == number
    ensures r["x"] == Num(200) && r["y"] == Num(200)
    ensures r["width"] == Num(120) && r["height"] == Num(120)
    ensures r["shape"] == Str("round") && r["capacity"] == Num(8)
  {
    assert "Id" != "number" && "Id" != "x" && "Id" != "y" && "Id" != "width" && "Id" != "height";
    assert "Id" != "shape" && "Id" != "capacity" && "number" != "x" && "number" != "y";
    assert "number" != "width" && "number" != "height" && "number" != "shape" && "number" != "capacity";
    assert "x" != "y" && "x" != "width" && "x" != "height" && "x" != "shape" && "x" != "capacity";
    assert "y" != "width" && "y" != "height" && "y" != "shape" && "y" != "capacity";
    assert "width" != "height" && "width" != "shape" && "width" != "capacity";
    assert "height" != "shape" && "height" != "capacity" && "shape" != "capacity";
    map["Id" := id, "number" := number, "x" := Num(200), "y" := Num(200),
        "width" := Num(120), "height" := Num(120), "shape" := Str("round"), "capacity" := Num(8)]
  }

  /** The table `addTable` appends: the defaults with the next Id and number,
      overridden by every field of `tableData`. */
  function NewTableRecord(tables: seq<Record>, tableData: Record): (r: Record)
    ensures forall k :: k in tableData ==> k in r && r[k] == tableData[k]
    ensures forall k :: k in DefaultTable(NextValue(tables, "Id"), NextValue(tables, "number")) && k !in tableData ==>
      k in r && r[k] == DefaultTable(NextValue(tables, "Id"), NextValue(tables, "number"))[k]
  {
    Merge(DefaultTable(NextValue(tables, "Id"), NextValue(tables, "number")), tableData)
  }

  /** Whether `parseInt(id)` is falsy (0 or NaN). */
  predicate InvalidId(v: Value)
    requires v.Num? || v.NaN?
  {
    v.NaN? || v.n == 0
  }

  class SeatingChartStore {
    /** `seatingChartData` */
    var chart: Chart

    constructor (seed: Chart)
      ensures chart == seed
    {
      chart := seed;
    }

    /** `getSeatingChart`: fresh copies of both arrays, same contents. */
    method GetSeatingChart() returns (r: Chart)
      ensures r.fields == chart.fields
      ensures |r.tables| == |chart.tables| && forall i :: 0 <= i < |r.tables| ==> r.tables[i] == chart.tables[i]
      ensures |r.unassignedGuests| == |chart.unassignedGuests|
      ensures forall i :: 0 <= i < |r.unassignedGuests| ==> r.unassignedGuests[i] == chart.unassignedGuests[i]
    {
      r := Chart(chart.fields, chart.tables[..], chart.unassignedGuests[..]);
    }

    /** `updateSeatingChart`: rejects a missing chart or non-array `tables` and keeps the
        store; otherwise stores the tables normalised, in order, and returns the store. */
    method UpdateSeatingChart(input: Option<ChartInput>) returns (r: Result<Chart>)
      modifies this
      ensures input.None? || input.value.tables.None? ==> r == Err(InvalidChart) && chart == old(chart)
      ensures input.Some? && input.value.tables.Some? ==> chart == Normalised(input.value) && r == Ok(chart)
    {
      if input.None? || input.value.tables.None? {
        return Err(InvalidChart);
      }
      chart := Normalised(input.value);
      r := Ok(chart);
    }

    /** `addTable`: appends one table built from the defaults and `tableData`, returns a copy. */
    method AddTable(tableData: Record) returns (r: Record)
      modifies this
      ensures r == NewTableRecord(old(chart.tables), tableData)
      ensures chart == old(chart).(tables := old(chart.tables) + [r])
    {
      r := NewTableRecord(chart.tables, tableData);
      chart := chart.(tables := chart.tables + [r]);
    }

    /** `deleteTable`: 'Invalid table ID' when `parseInt(id)` is 0 or NaN, 'Table not found'
        when no table has it (both keep the store), else splices out the first match. */
    method DeleteTable(id: Option<Value>) returns (r: Result<bool>)
      modifies this
      ensures InvalidId(ParseInt(id)) ==> r == Err(InvalidTableId) && chart == old(chart)
      ensures !InvalidId(ParseInt(id)) && ListStore.IndexOfId(old(chart.tables), ParseInt(id).n).None? ==>
        r == Err(TableNotFound) && chart == old(chart)
      ensures !InvalidId(ParseInt(id)) && ListStore.IndexOfId(old(chart.tables), ParseInt(id).n).Some? ==>
        && r == Ok(true)
        && chart == old(chart).(tables := ListStore.RemoveAt(old(chart.tables), ListStore.IndexOfId(old(chart.tables), ParseInt(id).n).value))
    {
      var tableId := ParseInt(id);
      if InvalidId(tableId) {
        return Err(InvalidTableId);
      }
      match ListStore.IndexOfId(chart.tables, tableId.n)
      case None =>
        r := Err(TableNotFound);
      case Some(k) =>
        chart := chart.(tables := ListStore.RemoveAt(chart.tables, k));
        r := Ok(true);
    }

    /** `assignGuestToTable`: reports success and changes nothing. */
    method AssignGuestToTable(guestId: Option<Value>, tableNumber: Option<Value>) returns (success: bool)
      ensures success
    {
      success := true;
    }
  }

  /** Storing a chart whose tables are already normalised (one the service returned)
      gives back that very chart: re-saving is a no-op write. */
  lemma ResaveIsNoOp(c: Chart)
    requires forall i :: 0 <= i < |c.tables| ==> Normalise(c.tables[i]) == c.tables[i]
    ensures Normalised(ChartInput(c.fields, Some(c.tables), Some(c.unassignedGuests))) == c
  {
  }

  /** Normalising a table twice is normalising it once, so every stored table is normalised. */
  lemma NormaliseIdempotent(t: Record)
    ensures Normalise(Normalise(t)) == Normalise(t)
  {
    var id := ParseInt(Field(t, "Id"));
    var number := ParseInt(Field(t, "number"));
    ParseIntIdempotent(Field(t, "Id"));
    ParseIntIdempotent(Field(t, "number"));
    SetTwice(t, id, number);
  }

  /** Setting `Id` and `number` to the values they already hold changes nothing. */
  lemma SetTwice(t: Record, id: Value, number: Value)
    ensures WithIdAndNumber(WithIdAndNumber(t, id, number), id, number) == WithIdAndNumber(t, id, number)
  {
  }

  /** After a successful update every stored table is in normal form, with numeric-or-NaN
      `Id` and `number`. */
  lemma UpdatedTablesNormal(input: ChartInput)
    requires input.tables.Some?
    ensures forall i :: 0 <= i < |Normalised(input).tables| ==>
      var t := Normalised(input).tables[i];
      && Normalise(t) == t
      && (t["Id"].Num? || t["Id"].NaN?)
      && (t["number"].Num? || t["number"].NaN?)
  {
    var c := Normalised(input);
    forall i | 0 <= i < |c.tables|
      ensures Normalise(c.tables[i]) == c.tables[i]
    {
      NormaliseIdempotent(input.tables.value[i]);
    }
  }

  /** With numeric Ids and numbers everywhere, and no `Id` or `number` in `tableData`,
      the new table's Id and number are numbers larger than every existing one, so
      neither is in use. */
  lemma AddTableFreshKeys(tables: seq<Record>, tableData: Record)
    requires forall i :: 0 <= i < |tables| ==> "Id" in tables[i] && tables[i]["Id"].Num?
    requires forall i :: 0 <= i < |tables| ==> "number" in tables[i] && tables[i]["number"].Num?
    requires "Id" !in tableData && "number" !in tableData
    ensures NewTableRecord(tables, tableData)["Id"].Num?
    ensures NewTableRecord(tables, tableData)["number"].Num?
    ensures forall i :: 0 <= i < |tables| ==> tables[i]["Id"].n < NewTableRecord(tables, tableData)["Id"].n
    ensures forall i :: 0 <= i < |tables| ==> tables[i]["number"].n < NewTableRecord(tables, tableData)["number"].n
    ensures NewTableRecord(tables, tableData)["Id"].n >= 1 && NewTableRecord(tables, tableData)["number"].n >= 1
  {
    var d := DefaultTable(NextValue(tables, "Id"), NextValue(tables, "number"));
    assert "Id" in d && "number" in d;
    assert forall i :: 0 <= i < |tables| ==> ToNumber(Field(tables[i], "Id")) == tables[i]["Id"];
    assert forall i :: 0 <= i < |tables| ==> ToNumber(Field(tables[i], "number")) == tables[i]["number"];
  }

  /** A table without an Id poisons `Math.max`: the new table's Id is `NaN`. */
  lemma AddTableNaNId(tables: seq<Record>, tableData: Record, j: nat)
    requires j < |tables| && "Id" !in tables[j]
    requires "Id" !in tableData
    ensures NewTableRecord(tables, tableData)["Id"] == NaN
  {
    var d := DefaultTable(NextValue(tables, "Id"), NextValue(tables, "number"));
    assert "Id" in d;
    assert ToNumber(Field(tables[j], "Id")) == NaN;
  }

  /** `deleteTable(undefined)` is rejected as an invalid id: `parseInt("undefined")` is `NaN`. */
  lemma MissingIdInvalid()
    ensures InvalidId(ParseInt(None))
  {
    var u := ToJsString(None);
    assert u == "undefined";
    assert !IsJsWhitespace(u[0]);
    assert TrimStart(u) == u;
    assert Text.LeadingDigits(u, 10) == [];
  }

  /** `deleteTable(0)` is rejected as an invalid id. */
  lemma ZeroIdInvalid()
    ensures InvalidId(ParseInt(Some(Num(0))))
  {
    ParseIntOfNumber(0);
  }
}
