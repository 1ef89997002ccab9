/**
 * The row list of the MainTable component and the pure operations its
 * handlers hand to `setRows`: the default table, `addRow`, `handleInputChange`,
 * `calculatePriceGB`, and the three column totals computed on every render.
 */
module Rows {
  import opened JsValues

  /** A quantity or price cell: the empty string `''` or a JavaScript number. */
  datatype Cell = Blank | Value(n: Number)

  /** A CN code: text, or the number `parseFloat` made of it in the input handler. */
  datatype Code = Text(s: string) | Parsed(n: Number)

  /** One line item; `priceGB` is absent until a conversion pass writes it. */
  datatype Row = Row(id: int, indexName: string, quantity: Cell, price: Cell, cnCode: Code, priceGB: Option<Number>)

  /** The fields the table's inputs edit. */
  datatype Field = IndexName | Quantity | Price | CnCode

  const DefaultRowCount: nat := 20

  /** Row `i` (0-based) carries id `i + 1`. */
  predicate IdsSequential(rows: seq<Row>)
  {
    forall i :: 0 <= i < |rows| ==> rows[i].id == i + 1
  }

  /** The table shown when nothing is saved: twenty empty rows numbered from 1. */
  function DefaultRows(): (rows: seq<Row>)
    ensures |rows| == DefaultRowCount
    ensures IdsSequential(rows)
    ensures forall i :: 0 <= i < |rows| ==>
      && rows[i].indexName == ""
      && rows[i].quantity == Blank
      && rows[i].price == Blank
      && rows[i].cnCode == Text("")
      && rows[i].priceGB == None
  {
    seq(DefaultRowCount, (i: int) => Row(i + 1, "", Blank, Blank, Text(""), None))
  }

  /** `addRow`: one more row at the end, numbered after the current length, with zero quantity and price. */
  function AddRow(rows: seq<Row>): (r: seq<Row>)
    ensures |r| == |rows| + 1
    ensures r[..|rows|] == rows
    ensures r[|rows|].id == |rows| + 1
    ensures r[|rows|].indexName == "" && r[|rows|].cnCode == Text("") && r[|rows|].priceGB == None
    ensures r[|rows|].quantity == Value(Zero) && r[|rows|].price == Value(Zero)
  {
    rows + [Row(|rows| + 1, "", Value(Zero), Value(Zero), Text(""), None)]
  }

  lemma AddRowKeepsIdsSequential(rows: seq<Row>)
    requires IdsSequential(rows)
    ensures IdsSequential(AddRow(rows))
  {
  }

  /**
   * One row after an edit of `field`: `indexName` keeps the raw text, every
   * other field (the CN code included) stores what `parseFloat` makes of it.
   */
  function SetField(row: Row, field: Field, value: string, parseFloat: string -> Number): (r: Row)
    ensures r.id == row.id && r.priceGB == row.priceGB
    ensures r.indexName == if field == IndexName then value else row.indexName
    ensures r.quantity == if field == Quantity then Value(parseFloat(value)) else row.quantity
    ensures r.price == if field == Price then Value(parseFloat(value)) else row.price
    ensures r.cnCode == if field == CnCode then Parsed(parseFloat(value)) else row.cnCode
  {
    match field
    case IndexName => row.(indexName := value)
    case Quantity => row.(quantity := Value(parseFloat(value)))
    case Price => row.(price := Value(parseFloat(value)))
    case CnCode => row.(cnCode := Parsed(parseFloat(value)))
  }

  /** `handleInputChange`: the row at `rowIndex` gets the edited field; an index outside the table changes nothing. */
  function HandleInputChange(rows: seq<Row>, rowIndex: int, field: Field, value: string, parseFloat: string -> Number): (r: seq<Row>)
    ensures |r| == |rows|
    ensures forall i :: 0 <= i < |rows| && i != rowIndex ==> r[i] == rows[i]
    ensures 0 <= rowIndex < |rows| ==> r[rowIndex] == SetField(rows[rowIndex], field, value, parseFloat)
  {
    seq(|rows|, (i: int) requires 0 <= i < |rows| =>
      if i == rowIndex then SetField(rows[i], field, value, parseFloat) else rows[i])
  }

  lemma HandleInputChangeKeepsIdsSequential(rows: seq<Row>, rowIndex: int, field: Field, value: string, parseFloat: string -> Number)
    requires IdsSequential(rows)
    ensures IdsSequential(HandleInputChange(rows, rowIndex, field, value, parseFloat))
  {
  }

  /** `parseFloat(row.price)`: the empty string reads as NaN. */
  function PriceNumber(row: Row): (r: Number)
    ensures r.Finite? <==> row.price.Value? && row.price.n.Finite?
  {
    if row.price.Value? then row.price.n else NaN
  }

  /** `calculatePriceGB`: with a positive rate every row gets `priceGB = price / rate`; otherwise the rows are kept. */
  function CalculatePriceGB(rows: seq<Row>, exchangeRate: real): (r: seq<Row>)
    ensures exchangeRate <= 0.0 ==> r == rows
    ensures |r| == |rows|
    ensures exchangeRate > 0.0 ==> forall i :: 0 <= i < |rows| ==>
      r[i] == rows[i].(priceGB := Some(Div(PriceNumber(rows[i]), exchangeRate)))
  {
    if exchangeRate > 0.0 then
      seq(|rows|, (i: int) requires 0 <= i < |rows| =>
        rows[i].(priceGB := Some(Div(PriceNumber(rows[i]), exchangeRate))))
    else
      rows
  }

  lemma CalculatePriceGBKeepsIdsSequential(rows: seq<Row>, exchangeRate: real)
    requires IdsSequential(rows)
    ensures IdsSequential(CalculatePriceGB(rows, exchangeRate))
  {
  }

  /** A second conversion at the same rate changes nothing: `priceGB` depends only on `price`. */
  lemma CalculatePriceGBIdempotent(rows: seq<Row>, exchangeRate: real)
    ensures CalculatePriceGB(CalculatePriceGB(rows, exchangeRate), exchangeRate) == CalculatePriceGB(rows, exchangeRate)
  {
  }

  /** `parseInt(row.quantity, 10)`: the empty string and NaN give NaN, a number loses its fraction. */
  function QuantityValue(row: Row): (r: Number)
    ensures r.NaN? <==> !(row.quantity.Value? && row.quantity.n.Finite?)
  {
    match row.quantity
    case Value(Finite(x)) => Finite(Truncate(x) as real)
    case _ => NaN
  }

  /** A numeric quantity counts as its integer part: never further from zero, and less than one away. */
  lemma QuantityValueTruncates(row: Row, x: real)
    requires row.quantity == Value(Finite(x))
    ensures QuantityValue(row).Finite?
    ensures 0.0 <= x ==> 0.0 <= QuantityValue(row).x <= x < QuantityValue(row).x + 1.0
    ensures x < 0.0 ==> QuantityValue(row).x - 1.0 < x <= QuantityValue(row).x <= 0.0
  {
  }

  /** `parseFloat(row.price || 0)`: a falsy price (`''`, 0, NaN) counts as 0. */
  function PriceValue(row: Row): (r: Number)
    ensures r.Finite?
    ensures Truthy(r) <==> row.price.Value? && Truthy(row.price.n)
    ensures Truthy(r) ==> r == row.price.n
  {
    if row.price.Value? && Truthy(row.price.n) then row.price.n else Zero
  }

  /** `parseFloat(row.priceGB || 0)`: an absent or falsy converted price counts as 0. */
  function PriceGBValue(row: Row): (r: Number)
    ensures r.Finite?
    ensures Truthy(r) <==> row.priceGB.Some? && Truthy(row.priceGB.value)
    ensures Truthy(r) ==> r == row.priceGB.value
  {
    if row.priceGB.Some? && Truthy(row.priceGB.value) then row.priceGB.value else Zero
  }

  /** `rows.reduce((total, row) => total + value(row), 0)`, folded from the left. */
  function Sum(rows: seq<Row>, value: Row -> Number): Number
  {
    if rows == [] then Zero else Add(Sum(rows[..|rows| - 1], value), value(rows[|rows| - 1]))
  }

  function TotalQuantity(rows: seq<Row>): Number
  {
    Sum(rows, QuantityValue)
  }

  function TotalPrice(rows: seq<Row>): Number
  {
    Sum(rows, PriceValue)
  }

  function TotalPriceGB(rows: seq<Row>): Number
  {
    Sum(rows, PriceGBValue)
  }

  /** A reduction is NaN exactly when one of the rows contributes NaN. */
  lemma {:induction false} SumIsNaN(rows: seq<Row>, value: Row -> Number)
    ensures Sum(rows, value).NaN? <==> exists i :: 0 <= i < |rows| && value(rows[i]).NaN?
  {
    if rows != [] {
      var init := rows[..|rows| - 1];
      SumIsNaN(init, value);
      if exists i :: 0 <= i < |init| && value(init[i]).NaN? {
        var i :| 0 <= i < |init| && value(init[i]).NaN?;
        assert rows[i] == init[i];
      }
      if exists i :: 0 <= i < |rows| && value(rows[i]).NaN? {
        var i :| 0 <= i < |rows| && value(rows[i]).NaN?;
        if i < |init| {
          assert init[i] == rows[i];
        }
      }
    }
  }

  /** Appending a row adds its value to the reduction. */
  lemma SumSnoc(rows: seq<Row>, row: Row, value: Row -> Number)
    ensures Sum(rows + [row], value) == Add(Sum(rows, value), value(row))
  {
    assert (rows + [row])[..|rows|] == rows;
  }

  /** A reduction where only the first row contributes a (finite) value is that value. */
  lemma {:induction false} SumOnlyFirst(rows: seq<Row>, value: Row -> Number)
    requires rows != [] && value(rows[0]).Finite?
    requires forall i :: 0 < i < |rows| ==> value(rows[i]) == Zero
    ensures Sum(rows, value) == value(rows[0])
  {
    var init := rows[..|rows| - 1];
    if init == [] {
      AddZero(value(rows[0]));
    } else {
      assert forall i :: 0 < i < |init| ==> init[i] == rows[i];
      SumOnlyFirst(init, value);
      assert Plus(value(rows[0]).x, 0.0) == value(rows[0]).x;
    }
  }

  /** The quantity total is NaN exactly when some row has no numeric quantity (NaN absorbs the sum). */
  lemma TotalQuantityIsNaN(rows: seq<Row>)
    ensures TotalQuantity(rows).NaN? <==>
      exists i :: 0 <= i < |rows| && !(rows[i].quantity.Value? && rows[i].quantity.n.Finite?)
  {
    SumIsNaN(rows, QuantityValue);
    if exists i :: 0 <= i < |rows| && QuantityValue(rows[i]).NaN? {
      var i :| 0 <= i < |rows| && QuantityValue(rows[i]).NaN?;
    }
  }

  /** The price total is always a number: a missing price never poisons it. */
  lemma TotalPriceIsFinite(rows: seq<Row>)
    ensures TotalPrice(rows).Finite?
  {
    SumIsNaN(rows, PriceValue);
  }

  /** After a conversion at a positive rate, the converted total is the price total divided by the rate. */
  lemma {:induction false} TotalPriceGBAfterConversion(rows: seq<Row>, exchangeRate: real)
    requires exchangeRate > 0.0
    ensures TotalPriceGB(CalculatePriceGB(rows, exchangeRate)) == Div(TotalPrice(rows), exchangeRate)
  {
    if rows != [] {
      var init := rows[..|rows| - 1];
      var converted := CalculatePriceGB(rows, exchangeRate);
      assert converted[..|rows| - 1] == CalculatePriceGB(init, exchangeRate);
      TotalPriceGBAfterConversion(init, exchangeRate);
      TotalPriceIsFinite(init);
      var last := rows[|rows| - 1];
      assert PriceGBValue(converted[|rows| - 1]).x == PriceValue(last).x / exchangeRate;
    }
  }

  /** A row appended by `addRow` contributes zero to every total. */
  lemma AddRowKeepsTotals(rows: seq<Row>)
    ensures TotalQuantity(AddRow(rows)) == TotalQuantity(rows)
    ensures TotalPrice(AddRow(rows)) == TotalPrice(rows)
    ensures TotalPriceGB(AddRow(rows)) == TotalPriceGB(rows)
  {
    var r := AddRow(rows);
    assert r[..|r| - 1] == rows;
  }

  /** An edit whose text `parseFloat` cannot read makes the quantity total NaN. */
  lemma UnreadableQuantityPoisonsTotal(rows: seq<Row>, rowIndex: int, value: string, parseFloat: string -> Number)
    requires 0 <= rowIndex < |rows|
    requires parseFloat(value) == NaN
    ensures TotalQuantity(HandleInputChange(rows, rowIndex, Quantity, value, parseFloat)) == NaN
  {
    var r := HandleInputChange(rows, rowIndex, Quantity, value, parseFloat);
    TotalQuantityIsNaN(r);
    assert !(r[rowIndex].quantity.Value? && r[rowIndex].quantity.n.Finite?);
  }
}
