/**
 * `calculateCnGroups`: rows are bucketed by the first four characters of their
 * CN code, and each bucket sums `parseInt(quantity)` and `parseFloat(price || 0)`.
 *
 * The loop's bucket guard `!groups[cnGroup]` restarts a bucket whose running
 * quantity is 0 or NaN, so the price already summed into it is lost. The
 * guard is modelled as written (`AsWritten`) and as evidently intended
 * (`Corrected`, a bucket is created only for a key not seen before).
 */
module CnGroups {
  import opened JsValues
  import opened Rows

  /** The two dictionaries the loop fills: quantity per group and price per group. */
  datatype Summary = Summary(groups: map<string, Number>, prices: map<string, Number>)

  /** `row.cnCode.substring` throws a TypeError when the code of row `index` is not text. */
  datatype GroupingError = CodeNotText(index: nat)

  datatype Result<T, E> = Success(value: T) | Failure(error: E)

  datatype Guard =
    | AsWritten   // `!groups[cnGroup]`: a running quantity of 0 or NaN reopens the bucket
    | Corrected   // a bucket is opened only for a key seen for the first time

  /** `cnCode.substring(0, 4)`: the first four characters, or the whole code when it is shorter. */
  function GroupKey(code: string): (key: string)
    ensures key <= code
    ensures |key| == if |code| < 4 then |code| else 4
  {
    if |code| < 4 then code else code[..4]
  }

  /** The row has a text code whose group key is `key`. */
  predicate InGroup(row: Row, key: string)
  {
    row.cnCode.Text? && GroupKey(row.cnCode.s) == key
  }

  /** Every CN code is still text, so `substring` applies to each of them. */
  predicate AllText(rows: seq<Row>)
  {
    forall i :: 0 <= i < |rows| ==> rows[i].cnCode.Text?
  }

  /** The group keys of the rows. */
  function KeySet(rows: seq<Row>): set<string>
  {
    set i | 0 <= i < |rows| && rows[i].cnCode.Text? :: GroupKey(rows[i].cnCode.s)
  }

  /** The rows of one group, in table order. */
  function RowsIn(rows: seq<Row>, key: string): seq<Row>
  {
    if rows == [] then []
    else RowsIn(rows[..|rows| - 1], key) + (if InGroup(rows[|rows| - 1], key) then [rows[|rows| - 1]] else [])
  }

  /** Whether the loop body (re)initialises the bucket of `key` to 0 before adding. */
  predicate OpensBucket(guard: Guard, groups: map<string, Number>, key: string)
  {
    key !in groups || (guard == AsWritten && !Truthy(groups[key]))
  }

  /**
   * One pass of the loop body for a row whose group key is `key`: a bucket
   * the guard (re)opens holds 0 plus the row's values, that is the row's
   * values; any other bucket of that key has them added.
   */
  function Accumulate(guard: Guard, s: Summary, key: string, row: Row): (r: Summary)
    requires s.groups.Keys == s.prices.Keys
    ensures r.groups.Keys == s.groups.Keys + {key}
    ensures r.prices.Keys == s.prices.Keys + {key}
  {
    if OpensBucket(guard, s.groups, key) then
      Summary(s.groups[key := QuantityValue(row)], s.prices[key := PriceValue(row)])
    else
      Summary(s.groups[key := Add(s.groups[key], QuantityValue(row))], s.prices[key := Add(s.prices[key], PriceValue(row))])
  }

  /** The value a bucket starts from: its current value, or 0 when it is new. */
  function Base(m: map<string, Number>, key: string): Number
  {
    if key in m then m[key] else Zero
  }

  /** A second update of the same key overrides the first. */
  lemma UpdateTwice(m: map<string, Number>, key: string, first: Number, second: Number)
    ensures m[key := first][key := second] == m[key := second]
  {
  }

  /** With the corrected guard a row adds its quantity and price into its bucket, which starts at 0 when new. */
  lemma AccumulateCorrected(s: Summary, key: string, row: Row)
    requires s.groups.Keys == s.prices.Keys
    ensures Accumulate(Corrected, s, key, row).groups == s.groups[key := Add(Base(s.groups, key), QuantityValue(row))]
    ensures Accumulate(Corrected, s, key, row).prices == s.prices[key := Add(Base(s.prices, key), PriceValue(row))]
  {
    if key !in s.groups {
      AddZero(QuantityValue(row));
      AddZero(PriceValue(row));
    }
  }

  /** The two dictionaries after running the loop body over `rows` in order. */
  function Fold(guard: Guard, rows: seq<Row>): (s: Summary)
    requires AllText(rows)
    ensures s.groups.Keys == s.prices.Keys
  {
    if rows == [] then Summary(map[], map[])
    else
      var last := rows[|rows| - 1];
      Accumulate(guard, Fold(guard, rows[..|rows| - 1]), GroupKey(last.cnCode.s), last)
  }

  /** The first row whose code is not text. */
  function FirstNonText(rows: seq<Row>): (i: nat)
    requires !AllText(rows)
    ensures i < |rows| && !rows[i].cnCode.Text? && AllText(rows[..i])
  {
    if !rows[0].cnCode.Text? then 0
    else
      var i := 1 + FirstNonText(rows[1..]);
      assert forall j :: 0 < j < i ==> rows[..i][j] == rows[1..][..i - 1][j - 1];
      i
  }

  /** A row whose code is not text, after only text codes, is the first such row. */
  lemma FirstNonTextAt(rows: seq<Row>, i: nat)
    requires i < |rows| && !rows[i].cnCode.Text? && AllText(rows[..i])
    ensures !AllText(rows) && FirstNonText(rows) == i
  {
  }

  /**
   * The outcome of `calculateCnGroups`: the summary when every code is text,
   * otherwise the TypeError thrown at the first code that is not.
   */
  function Aggregate(guard: Guard, rows: seq<Row>): (r: Result<Summary, GroupingError>)
    ensures r.Success? <==> AllText(rows)
    ensures r.Failure? ==> r.error.index < |rows| && !rows[r.error.index].cnCode.Text?
  {
    if AllText(rows) then Success(Fold(guard, rows)) else Failure(CodeNotText(FirstNonText(rows)))
  }

  /** Every row of the prefix has a text code. */
  lemma PrefixAllText(rows: seq<Row>, n: nat)
    requires AllText(rows) && n <= |rows|
    ensures AllText(rows[..n])
  {
    assert forall i :: 0 <= i < n ==> rows[..n][i] == rows[i];
  }

  /** The rows without their last one still all have text codes. */
  lemma InitAllText(rows: seq<Row>)
    requires AllText(rows) && rows != []
    ensures AllText(rows[..|rows| - 1])
  {
    PrefixAllText(rows, |rows| - 1);
  }

  /** The keys of the rows are those of all but the last, plus the last one's. */
  lemma KeySetInit(rows: seq<Row>)
    requires AllText(rows) && rows != []
    ensures KeySet(rows) == KeySet(rows[..|rows| - 1]) + {GroupKey(rows[|rows| - 1].cnCode.s)}
  {
    var init := rows[..|rows| - 1];
    forall k | k in KeySet(rows) ensures k in KeySet(init) + {GroupKey(rows[|rows| - 1].cnCode.s)} {
      var i :| 0 <= i < |rows| && rows[i].cnCode.Text? && GroupKey(rows[i].cnCode.s) == k;
      if i < |init| { assert init[i] == rows[i]; }
    }
    forall k | k in KeySet(init) ensures k in KeySet(rows) {
      var i :| 0 <= i < |init| && init[i].cnCode.Text? && GroupKey(init[i].cnCode.s) == k;
      assert rows[i] == init[i];
    }
  }

  /** Buckets exist for exactly the group keys of the rows: none is pre-seeded, none is extra. */
  lemma {:induction false} FoldKeys(guard: Guard, rows: seq<Row>)
    requires AllText(rows)
    ensures Fold(guard, rows).groups.Keys == KeySet(rows)
    ensures Fold(guard, rows).prices.Keys == KeySet(rows)
  {
    if rows != [] {
      InitAllText(rows);
      FoldKeys(guard, rows[..|rows| - 1]);
      KeySetInit(rows);
    }
  }

  /** A key that no row has selects no rows. */
  lemma {:induction false} NoKeyNoRows(rows: seq<Row>, key: string)
    requires AllText(rows)
    requires key !in KeySet(rows)
    ensures RowsIn(rows, key) == []
  {
    if rows != [] {
      InitAllText(rows);
      KeySetInit(rows);
      NoKeyNoRows(rows[..|rows| - 1], key);
    }
  }

  /**
   * With the corrected guard, each bucket holds the totals of its own rows:
   * the quantity is the `parseInt` sum (NaN if one of them has no numeric
   * quantity) and the price is the sum with missing prices counted as 0.
   */
  lemma {:induction false} GroupTotals(rows: seq<Row>, key: string)
    requires AllText(rows)
    requires key in KeySet(rows)
    ensures key in Fold(Corrected, rows).groups && key in Fold(Corrected, rows).prices
    ensures Fold(Corrected, rows).groups[key] == TotalQuantity(RowsIn(rows, key))
    ensures Fold(Corrected, rows).prices[key] == TotalPrice(RowsIn(rows, key))
  {
    var init := rows[..|rows| - 1];
    var last := rows[|rows| - 1];
    InitAllText(rows);
    KeySetInit(rows);
    FoldKeys(Corrected, init);
    FoldKeys(Corrected, rows);
    var s := Fold(Corrected, init);
    var lastKey := GroupKey(last.cnCode.s);
    AccumulateCorrected(s, lastKey, last);
    var here := RowsIn(init, key);
    if key == lastKey {
      assert RowsIn(rows, key) == here + [last];
      SumSnoc(here, last, QuantityValue);
      SumSnoc(here, last, PriceValue);
      if key in KeySet(init) {
        GroupTotals(init, key);
      } else {
        NoKeyNoRows(init, key);
      }
    } else {
      assert RowsIn(rows, key) == here;
      GroupTotals(init, key);
    }
  }

  /** A group's rows are exactly the rows whose text code has its key. */
  lemma {:induction false} RowsInExactly(rows: seq<Row>, key: string, row: Row)
    ensures row in RowsIn(rows, key) <==> row in rows && InGroup(row, key)
  {
    if rows != [] {
      var init := rows[..|rows| - 1];
      RowsInExactly(init, key, row);
      assert rows == init + [rows[|rows| - 1]];
    }
  }

  /** A group's quantity is NaN exactly when one of its rows has no numeric quantity. */
  lemma GroupQuantityIsNaN(rows: seq<Row>, key: string)
    requires AllText(rows)
    requires key in KeySet(rows)
    ensures key in Fold(Corrected, rows).groups
    ensures Fold(Corrected, rows).groups[key].NaN? <==>
      exists row :: row in rows && InGroup(row, key) && !(row.quantity.Value? && row.quantity.n.Finite?)
  {
    GroupTotals(rows, key);
    GroupRowsQuantityIsNaN(rows, key);
  }

  /** The quantity total of a group's rows is NaN exactly when one of them has no numeric quantity. */
  lemma GroupRowsQuantityIsNaN(rows: seq<Row>, key: string)
    ensures TotalQuantity(RowsIn(rows, key)).NaN? <==>
      exists row :: row in rows && InGroup(row, key) && !(row.quantity.Value? && row.quantity.n.Finite?)
  {
    var members := RowsIn(rows, key);
    TotalQuantityIsNaN(members);
    if exists i :: 0 <= i < |members| && !(members[i].quantity.Value? && members[i].quantity.n.Finite?) {
      var i :| 0 <= i < |members| && !(members[i].quantity.Value? && members[i].quantity.n.Finite?);
      RowsInExactly(rows, key, members[i]);
    }
    if exists row :: row in rows && InGroup(row, key) && !(row.quantity.Value? && row.quantity.n.Finite?) {
      var row :| row in rows && InGroup(row, key) && !(row.quantity.Value? && row.quantity.n.Finite?);
      RowsInExactly(rows, key, row);
      var i :| 0 <= i < |members| && members[i] == row;
    }
  }

  /** Rows whose codes are all empty share the single key "". */
  lemma EmptyCodesOneKey(rows: seq<Row>)
    requires rows != []
    requires forall i :: 0 <= i < |rows| ==> rows[i].cnCode == Text("")
    ensures AllText(rows) && KeySet(rows) == {""}
  {
    forall k | k in KeySet(rows) ensures k == "" {
      var i :| 0 <= i < |rows| && rows[i].cnCode.Text? && GroupKey(rows[i].cnCode.s) == k;
      assert rows[i].cnCode.s == "";
    }
    assert GroupKey(rows[0].cnCode.s) == "";
  }

  /** A table of rows with empty codes and empty quantities forms the single empty-code group, whose quantity is NaN. */
  lemma BlankTableGroups(rows: seq<Row>)
    requires rows != []
    requires forall i :: 0 <= i < |rows| ==> rows[i].cnCode == Text("") && rows[i].quantity == Blank
    ensures AllText(rows)
    ensures Fold(Corrected, rows).groups == map["" := NaN]
  {
    EmptyCodesOneKey(rows);
    FoldKeys(Corrected, rows);
    GroupQuantityIsNaN(rows, "");
    assert InGroup(rows[0], "");
    SingleKeyMap(Fold(Corrected, rows).groups, "", NaN);
  }

  /** A dictionary with the one key `key` holding `v`. */
  lemma SingleKeyMap(m: map<string, Number>, key: string, v: Number)
    requires m.Keys == {key} && m[key] == v
    ensures m == map[key := v]
  {
  }

  /** Submitting the default table gives one group, the empty code, with quantity NaN, and as written with price 0. */
  lemma DefaultTableGroups()
    ensures AllText(DefaultRows())
    ensures Fold(Corrected, DefaultRows()).groups == map["" := NaN]
    ensures Fold(AsWritten, DefaultRows()) == Summary(map["" := NaN], map["" := Zero])
  {
    BlankTableGroups(DefaultRows());
    BlankQuantitiesAsWritten(DefaultRows());
  }

  /** The sum of `m` over `keys`, in no particular order (the addition is commutative). */
  ghost function SumOver(m: map<string, Number>, keys: set<string>): Number
    requires keys <= m.Keys
    decreases keys
  {
    if keys == {} then Zero else var k :| k in keys; Add(m[k], SumOver(m, keys - {k}))
  }

  /** The sum of all values of a dictionary. */
  ghost function SumValues(m: map<string, Number>): Number
  {
    SumOver(m, m.Keys)
  }

  /** Any key can be taken out first. */
  lemma {:induction false} SumOverRemove(m: map<string, Number>, keys: set<string>, k: string)
    requires keys <= m.Keys && k in keys
    ensures SumOver(m, keys) == Add(m[k], SumOver(m, keys - {k}))
    decreases keys
  {
    var j :| j in keys && SumOver(m, keys) == Add(m[j], SumOver(m, keys - {j}));
    if j != k {
      var rest := keys - {j} - {k};
      assert keys - {k} - {j} == rest;
      SumOverRemove(m, keys - {j}, k);
      SumOverRemove(m, keys - {k}, j);
      assert SumOver(m, keys) == Add(m[j], Add(m[k], SumOver(m, rest)));
      assert SumOver(m, keys - {k}) == Add(m[j], SumOver(m, rest));
    }
  }

  /** The sum over `keys` only reads the values at `keys`. */
  lemma {:induction false} SumOverAgree(m: map<string, Number>, m': map<string, Number>, keys: set<string>)
    requires keys <= m.Keys && keys <= m'.Keys
    requires forall k :: k in keys ==> m[k] == m'[k]
    ensures SumOver(m, keys) == SumOver(m', keys)
    decreases keys
  {
    if keys != {} {
      var k :| k in keys;
      SumOverRemove(m, keys, k);
      SumOverRemove(m', keys, k);
      SumOverAgree(m, m', keys - {k});
    }
  }

  /** Adding `d` into one entry (new or existing, starting at 0) adds `d` to the sum. */
  lemma AddIntoEntry(m: map<string, Number>, key: string, d: Number)
    ensures SumValues(m[key := Add(Base(m, key), d)]) == Add(SumValues(m), d)
  {
    var base := Base(m, key);
    var m' := m[key := Add(base, d)];
    SumOverRemove(m', m'.Keys, key);
    SumOverAgree(m, m', m.Keys - {key});
    if key in m {
      SumOverRemove(m, m.Keys, key);
      assert m'.Keys - {key} == m.Keys - {key};
    } else {
      assert m'.Keys - {key} == m.Keys;
      assert m.Keys - {key} == m.Keys;
    }
  }

  /**
   * With the corrected guard, the group quantities add up to `totalQuantity`
   * and the group prices add up to `totalPrice`.
   */
  lemma {:induction false} GroupTotalsAddUp(rows: seq<Row>)
    requires AllText(rows)
    ensures SumValues(Fold(Corrected, rows).groups) == TotalQuantity(rows)
    ensures SumValues(Fold(Corrected, rows).prices) == TotalPrice(rows)
  {
    if rows == [] {
      assert SumValues(map[]) == Zero;
    } else {
      var init := rows[..|rows| - 1];
      var last := rows[|rows| - 1];
      InitAllText(rows);
      GroupTotalsAddUp(init);
      var s := Fold(Corrected, init);
      var key := GroupKey(last.cnCode.s);
      AccumulateCorrected(s, key, last);
      AddIntoEntry(s.groups, key, QuantityValue(last));
      AddIntoEntry(s.prices, key, PriceValue(last));
    }
  }

  /** Under the guard as written, a bucket opened with a falsy quantity is reopened by the next row of its group. */
  lemma SecondPassAsWritten(first: Row, second: Row, key: string)
    requires !Truthy(QuantityValue(first))
    ensures Accumulate(AsWritten, Summary(map[key := QuantityValue(first)], map[key := PriceValue(first)]), key, second)
      == Summary(map[key := QuantityValue(second)], map[key := PriceValue(second)])
  {
    var one := Summary(map[key := QuantityValue(first)], map[key := PriceValue(first)]);
    ReopenedBucket(one, key, second);
    UpdateTwice(map[], key, QuantityValue(first), QuantityValue(second));
    UpdateTwice(map[], key, PriceValue(first), PriceValue(second));
  }

  /** Under the corrected guard, the next row of the group adds into the bucket. */
  lemma SecondPassCorrected(first: Row, second: Row, key: string)
    ensures Accumulate(Corrected, Summary(map[key := QuantityValue(first)], map[key := PriceValue(first)]), key, second).prices
      == map[key := Add(PriceValue(first), PriceValue(second))]
  {
    var one := Summary(map[key := QuantityValue(first)], map[key := PriceValue(first)]);
    AccumulateCorrected(one, key, second);
    UpdateTwice(map[], key, PriceValue(first), Add(PriceValue(first), PriceValue(second)));
  }

  /**
   * Two rows of one group, the first with a falsy `parseInt` quantity (0, a
   * fraction below 1, or NaN): the guard as written reopens the bucket for
   * the second row, and the first row's price is lost from the summary.
   */
  lemma FalsyQuantityDropsPriceAsWritten(first: Row, second: Row, key: string)
    requires InGroup(first, key) && InGroup(second, key)
    requires !Truthy(QuantityValue(first))
    ensures AllText([first] + [second])
    ensures Fold(AsWritten, [first] + [second]).groups == map[key := QuantityValue(second)]
    ensures Fold(AsWritten, [first] + [second]).prices == map[key := PriceValue(second)]
  {
    FirstRowOpensBucket(AsWritten, first, key);
    FoldSnoc(AsWritten, [first], second);
    SecondPassAsWritten(first, second, key);
  }

  /** The same two rows under the corrected guard: the bucket holds both prices. */
  lemma CorrectedKeepsBothPrices(first: Row, second: Row, key: string)
    requires InGroup(first, key) && InGroup(second, key)
    ensures AllText([first] + [second])
    ensures Fold(Corrected, [first] + [second]).prices == map[key := Add(PriceValue(first), PriceValue(second))]
  {
    FirstRowOpensBucket(Corrected, first, key);
    FoldSnoc(Corrected, [first], second);
    SecondPassCorrected(first, second, key);
  }

  /**
   * Two rows of group "1234", the first with quantity 0 and price 10, the
   * second with quantity 1 and price 5: as written the summary shows a
   * price of 5 where the column total is 15. The same loss is reachable from
   * the default table: with a price of 10 typed into its first row and every
   * quantity left empty, each row reopens the bucket "", whose price ends as
   * the last row's 0 while the column total is 10.
   */
  lemma AsWrittenDropsPrices(parseFloat: string -> Number)
    requires parseFloat("10") == Finite(10.0)
    ensures var first := Row(1, "", Value(Finite(0.0)), Value(Finite(10.0)), Text("1234"), None);
      var second := Row(2, "", Value(Finite(1.0)), Value(Finite(5.0)), Text("1234AB"), None);
      && AllText([first] + [second])
      && Fold(AsWritten, [first] + [second]).prices == map["1234" := Finite(5.0)]
      && TotalPrice([first] + [second]) == Finite(15.0)
    ensures var edited := HandleInputChange(DefaultRows(), 0, Price, "10", parseFloat);
      && AllText(edited)
      && Fold(AsWritten, edited).prices == map["" := Zero]
      && TotalPrice(edited) == Finite(10.0)
  {
    var first := Row(1, "", Value(Finite(0.0)), Value(Finite(10.0)), Text("1234"), None);
    var second := Row(2, "", Value(Finite(1.0)), Value(Finite(5.0)), Text("1234AB"), None);
    assert InGroup(first, "1234") && InGroup(second, "1234");
    assert QuantityValue(first) == Zero && PriceValue(first) == Finite(10.0) && PriceValue(second) == Finite(5.0);
    FalsyQuantityDropsPriceAsWritten(first, second, "1234");
    SumSnoc([], first, PriceValue);
    SumSnoc([first], second, PriceValue);
    assert [] + [first] == [first];

    var edited := HandleInputChange(DefaultRows(), 0, Price, "10", parseFloat);
    BlankQuantitiesAsWritten(edited);
    assert PriceValue(edited[|edited| - 1]) == Zero;
    assert PriceValue(edited[0]) == Finite(10.0);
    SumOnlyFirst(edited, PriceValue);
  }

  /**
   * As written, rows with empty codes and empty quantities reopen the bucket
   * "" one after the other: its quantity is NaN and its price is the last
   * row's alone.
   */
  lemma {:induction false} BlankQuantitiesAsWritten(rows: seq<Row>)
    requires rows != []
    requires forall i :: 0 <= i < |rows| ==> rows[i].cnCode == Text("") && rows[i].quantity == Blank
    ensures AllText(rows)
    ensures Fold(AsWritten, rows) == Summary(map["" := NaN], map["" := PriceValue(rows[|rows| - 1])])
  {
    var init := rows[..|rows| - 1];
    var last := rows[|rows| - 1];
    assert GroupKey(last.cnCode.s) == "";
    if init == [] {
      assert rows == [last];
      FirstRowOpensBucket(AsWritten, last, "");
    } else {
      assert forall i :: 0 <= i < |init| ==> init[i] == rows[i];
      BlankQuantitiesAsWritten(init);
      var s := Fold(AsWritten, init);
      ReopenedBucket(s, "", last);
      UpdateTwice(map[], "", NaN, QuantityValue(last));
      UpdateTwice(map[], "", PriceValue(init[|init| - 1]), PriceValue(last));
    }
  }

  /**
   * As written, a group's quantity is NaN exactly when the LAST row of the
   * group has no numeric quantity: a NaN running quantity is falsy, so the
   * next row of the group reopens the bucket at its own quantity.
   */
  lemma {:induction false} AsWrittenGroupQuantityIsNaN(rows: seq<Row>, key: string)
    requires AllText(rows)
    requires key in Fold(AsWritten, rows).groups
    ensures RowsIn(rows, key) != []
    ensures var last := RowsIn(rows, key)[|RowsIn(rows, key)| - 1];
      Fold(AsWritten, rows).groups[key].NaN? <==> !(last.quantity.Value? && last.quantity.n.Finite?)
  {
    assert rows != [];
    var init := rows[..|rows| - 1];
    var last := rows[|rows| - 1];
    InitAllText(rows);
    var s := Fold(AsWritten, init);
    var k := GroupKey(last.cnCode.s);
    assert Fold(AsWritten, rows) == Accumulate(AsWritten, s, k, last);
    assert RowsIn(rows, key) == RowsIn(init, key) + (if InGroup(last, key) then [last] else []);
    if k == key {
      assert InGroup(last, key);
      if !OpensBucket(AsWritten, s.groups, key) {
        assert Truthy(s.groups[key]);
      }
    } else {
      assert !InGroup(last, key);
      assert Fold(AsWritten, rows).groups[key] == s.groups[key];
      AsWrittenGroupQuantityIsNaN(init, key);
    }
  }

  /** The loop over `rows + [row]` is one more pass of the loop body. */
  lemma FoldSnoc(guard: Guard, rows: seq<Row>, row: Row)
    requires AllText(rows) && row.cnCode.Text?
    ensures AllText(rows + [row])
    ensures Fold(guard, rows + [row]) == Accumulate(guard, Fold(guard, rows), GroupKey(row.cnCode.s), row)
  {
    assert (rows + [row])[..|rows|] == rows;
  }

  /** The first row of a one-row table opens its bucket with its own quantity and price. */
  lemma FirstRowOpensBucket(guard: Guard, row: Row, key: string)
    requires row.cnCode.Text? && GroupKey(row.cnCode.s) == key
    ensures AllText([row])
    ensures Fold(guard, [row]) == Summary(map[key := QuantityValue(row)], map[key := PriceValue(row)])
  {
    FoldSnoc(guard, [], row);
    assert [] + [row] == [row];
  }

  /** A bucket whose running quantity is falsy restarts, under the guard as written, at this row's values. */
  lemma ReopenedBucket(s: Summary, key: string, row: Row)
    requires s.groups.Keys == s.prices.Keys && key in s.groups && !Truthy(s.groups[key])
    ensures Accumulate(AsWritten, s, key, row) == Summary(s.groups[key := QuantityValue(row)], s.prices[key := PriceValue(row)])
  {
    assert OpensBucket(AsWritten, s.groups, key);
  }

  /** The loop body's two steps, opening the bucket and then adding into it, make one pass. */
  lemma LoopPass(guard: Guard, s: Summary, key: string, row: Row)
    requires s.groups.Keys == s.prices.Keys
    ensures var open := OpensBucket(guard, s.groups, key);
      var groups := if open then s.groups[key := Zero] else s.groups;
      var prices := if open then s.prices[key := Zero] else s.prices;
      Accumulate(guard, s, key, row) ==
        Summary(groups[key := Add(groups[key], QuantityValue(row))], prices[key := Add(prices[key], PriceValue(row))])
  {
    if OpensBucket(guard, s.groups, key) {
      UpdateTwice(s.groups, key, Zero, Add(Zero, QuantityValue(row)));
      UpdateTwice(s.prices, key, Zero, Add(Zero, PriceValue(row)));
      AddZero(QuantityValue(row));
      AddZero(PriceValue(row));
    }
  }

  /** Every row's `parseInt` quantity is a positive number. */
  predicate PositiveQuantities(rows: seq<Row>)
  {
    forall i :: 0 <= i < |rows| ==> QuantityValue(rows[i]).Finite? && QuantityValue(rows[i]).x > 0.0
  }

  /**
   * When every row has a quantity of at least 1 every running quantity is
   * positive, hence truthy, so the loop as written agrees with the corrected one.
   */
  lemma {:induction false} AsWrittenAgreesOnPositiveQuantities(rows: seq<Row>)
    requires AllText(rows)
    requires PositiveQuantities(rows)
    ensures Fold(AsWritten, rows) == Fold(Corrected, rows)
    ensures PositiveGroups(Fold(Corrected, rows))
  {
    if rows != [] {
      var init := rows[..|rows| - 1];
      InitAllText(rows);
      assert PositiveQuantities(init) by {
        forall i | 0 <= i < |init| ensures QuantityValue(init[i]).Finite? && QuantityValue(init[i]).x > 0.0 {
          assert init[i] == rows[i];
        }
      }
      AsWrittenAgreesOnPositiveQuantities(init);
      var last := rows[|rows| - 1];
      AgreeStep(Fold(Corrected, init), GroupKey(last.cnCode.s), last);
    }
  }

  /** Every bucket's running quantity is a positive number. */
  predicate PositiveGroups(s: Summary)
  {
    forall k :: k in s.groups ==> s.groups[k].Finite? && s.groups[k].x > 0.0
  }

  /** With positive running quantities, both guards take the same pass, which keeps them positive. */
  lemma AgreeStep(s: Summary, key: string, row: Row)
    requires s.groups.Keys == s.prices.Keys && PositiveGroups(s)
    requires QuantityValue(row).Finite? && QuantityValue(row).x > 0.0
    ensures Accumulate(AsWritten, s, key, row) == Accumulate(Corrected, s, key, row)
    ensures PositiveGroups(Accumulate(Corrected, s, key, row))
  {
    if key in s.groups {
      assert Truthy(s.groups[key]);
    }
    SameOpeningSamePass(s, key, row);
    AccumulateCorrected(s, key, row);
    var groups := Accumulate(Corrected, s, key, row).groups;
    var base := Base(s.groups, key);
    assert base.Finite? && base.x >= 0.0;
    forall k | k in groups ensures groups[k].Finite? && groups[k].x > 0.0 {
      if k != key {
        assert groups[k] == s.groups[k];
      }
    }
  }

  /** When the two guards decide alike, the passes are the same. */
  lemma SameOpeningSamePass(s: Summary, key: string, row: Row)
    requires s.groups.Keys == s.prices.Keys
    requires OpensBucket(AsWritten, s.groups, key) == OpensBucket(Corrected, s.groups, key)
    ensures Accumulate(AsWritten, s, key, row) == Accumulate(Corrected, s, key, row)
  {
  }

  /** The loop's state after `i` rows, all with text codes. */
  lemma FoldStep(guard: Guard, rows: seq<Row>, i: nat)
    requires i < |rows| && AllText(rows[..i]) && rows[i].cnCode.Text?
    ensures AllText(rows[..i + 1])
    ensures Fold(guard, rows[..i + 1]) == Accumulate(guard, Fold(guard, rows[..i]), GroupKey(rows[i].cnCode.s), rows[i])
  {
    assert rows[..i + 1][..i] == rows[..i];
    assert forall j :: 0 <= j < i ==> rows[..i + 1][j] == rows[..i][j];
  }

  /**
   * `calculateCnGroups` as written: a `forEach` over the rows filling the two
   * dictionaries, with the bucket guard `!groups[cnGroup]`.
   */
  method CalculateCnGroupsAsWritten(rows: seq<Row>) returns (r: Result<Summary, GroupingError>)
    ensures r == Aggregate(AsWritten, rows)
  {
    var groups: map<string, Number> := map[];
    var prices: map<string, Number> := map[];
    var i := 0;
    while i < |rows|
      invariant 0 <= i <= |rows|
      invariant AllText(rows[..i])
      invariant Fold(AsWritten, rows[..i]) == Summary(groups, prices)
    {
      var row := rows[i];
      if !row.cnCode.Text? {
        FirstNonTextAt(rows, i);
        return Failure(CodeNotText(i));
      }
      FoldStep(AsWritten, rows, i);
      var cnGroup := GroupKey(row.cnCode.s);
      LoopPass(AsWritten, Summary(groups, prices), cnGroup, row);
      assert OpensBucket(AsWritten, groups, cnGroup) <==> cnGroup !in groups || !Truthy(groups[cnGroup]);
      if cnGroup !in groups || !Truthy(groups[cnGroup]) {
        groups := groups[cnGroup := Zero];
        prices := prices[cnGroup := Zero];
      }
      groups := groups[cnGroup := Add(groups[cnGroup], QuantityValue(row))];
      prices := prices[cnGroup := Add(prices[cnGroup], PriceValue(row))];
      i := i + 1;
    }
    assert rows[..i] == rows;
    return Success(Summary(groups, prices));
  }

  /** `calculateCnGroups` with the bucket opened only for a key not seen before. */
  method CalculateCnGroups(rows: seq<Row>) returns (r: Result<Summary, GroupingError>)
    ensures r == Aggregate(Corrected, rows)
  {
    var groups: map<string, Number> := map[];
    var prices: map<string, Number> := map[];
    var i := 0;
    while i < |rows|
      invariant 0 <= i <= |rows|
      invariant AllText(rows[..i])
      invariant Fold(Corrected, rows[..i]) == Summary(groups, prices)
    {
      var row := rows[i];
      if !row.cnCode.Text? {
        FirstNonTextAt(rows, i);
        return Failure(CodeNotText(i));
      }
      FoldStep(Corrected, rows, i);
      var cnGroup := GroupKey(row.cnCode.s);
      LoopPass(Corrected, Summary(groups, prices), cnGroup, row);
      if cnGroup !in groups {
        groups := groups[cnGroup := Zero];
        prices := prices[cnGroup := Zero];
      }
      groups := groups[cnGroup := Add(groups[cnGroup], QuantityValue(row))];
      prices := prices[cnGroup := Add(prices[cnGroup], PriceValue(row))];
      i := i + 1;
    }
    assert rows[..i] == rows;
    return Success(Summary(groups, prices));
  }

  /** Once a CN code has been typed into a row, the input handler has made it a number and grouping throws. */
  lemma EditedCodeBreaksGrouping(guard: Guard, rows: seq<Row>, rowIndex: int, value: string, parseFloat: string -> Number)
    requires 0 <= rowIndex < |rows|
    ensures Aggregate(guard, HandleInputChange(rows, rowIndex, CnCode, value, parseFloat)).Failure?
  {
    var edited := HandleInputChange(rows, rowIndex, CnCode, value, parseFloat);
    assert !edited[rowIndex].cnCode.Text?;
  }
}
