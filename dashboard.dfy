/** The values the dashboard (components/Dashboard.tsx) derives from the list of logs: the
    date-ordered copy behind the chart, total spend, total quantity, the number of suppliers
    and the chart points. All are functions of the list; nothing is stored. */
module Dashboard {

  import opened Types
  import opened Chronology
  import Worksheet
  import JsText

  /** `[...logs].sort(...)` by date, oldest first: a sorted permutation of the logs. The input
      list is a value and keeps its order. */
  function Data(logs: seq<DailyLog>, instant: string -> int): (data: seq<DailyLog>)
    ensures Sorted(data, OldestFirst, instant)
    ensures multiset(data) == multiset(logs)
    ensures |data| == |logs|
  {
    assert |multiset(SortBy(logs, OldestFirst, instant))| == |multiset(logs)|;
    SortBy(logs, OldestFirst, instant)
  }

  // ---------------------------------------------------------------- total spend

  /** `logs.reduce((acc, curr) => acc + curr.totalCost, 0)`. */
  function TotalSpend(logs: seq<DailyLog>): real {
    if logs == [] then 0.0 else TotalSpend(logs[..|logs| - 1]) + logs[|logs| - 1].totalCost
  }

  lemma {:induction false} TotalSpendAppend(a: seq<DailyLog>, b: seq<DailyLog>)
    ensures TotalSpend(a + b) == TotalSpend(a) + TotalSpend(b)
    decreases |b|
  {
    if b == [] {
      assert a + b == a;
    } else {
      assert (a + b)[..|a + b| - 1] == a + b[..|b| - 1];
      TotalSpendAppend(a, b[..|b| - 1]);
    }
  }

  /** Taking the same log out of two lists with equal multisets leaves equal multisets. */
  lemma RemoveMatching(a': seq<DailyLog>, x: DailyLog, b: seq<DailyLog>, i: nat)
    requires i < |b| && b[i] == x && multiset(a' + [x]) == multiset(b)
    ensures multiset(a') == multiset(b[..i] + b[i + 1..])
  {
    var b' := b[..i] + b[i + 1..];
    assert b == b[..i] + [x] + b[i + 1..];
    assert multiset(b) == multiset(b') + multiset{x};
    assert multiset(a' + [x]) == multiset(a') + multiset{x};
    forall y ensures multiset(a')[y] == multiset(b')[y] {
      assert (multiset(a') + multiset{x})[y] == (multiset(b') + multiset{x})[y];
    }
  }

  /** Taking one log out of a list takes its cost out of the total spend. */
  lemma TotalSpendRemove(b: seq<DailyLog>, i: nat)
    requires i < |b|
    ensures TotalSpend(b) == TotalSpend(b[..i] + b[i + 1..]) + b[i].totalCost
  {
    var front, back := b[..i], b[i + 1..];
    var withX := front + [b[i]];
    assert b == front + b[i..];
    assert b[i..] == [b[i]] + back;
    assert b == withX + back;
    assert withX != [] && withX[|withX| - 1] == b[i] && withX[..|withX| - 1] == front;
    assert TotalSpend(withX) == TotalSpend(front) + b[i].totalCost;
    TotalSpendAppend(withX, back);
    TotalSpendAppend(front, back);
  }

  /** Total spend does not depend on the order of the logs. */
  lemma {:induction false} TotalSpendPermutation(a: seq<DailyLog>, b: seq<DailyLog>)
    requires multiset(a) == multiset(b)
    ensures TotalSpend(a) == TotalSpend(b)
    decreases |a|
  {
    if a != [] {
      var x := a[|a| - 1];
      var a' := a[..|a| - 1];
      assert a == a' + [x];
      assert x in multiset(b);
      var i :| 0 <= i < |b| && b[i] == x;
      RemoveMatching(a', x, b, i);
      TotalSpendPermutation(a', b[..i] + b[i + 1..]);
      TotalSpendRemove(b, i);
    }
  }

  /** The chart's ordering does not change the spend it sums to. */
  lemma DataTotalSpend(logs: seq<DailyLog>, instant: string -> int)
    ensures TotalSpend(Data(logs, instant)) == TotalSpend(logs)
  {
    TotalSpendPermutation(Data(logs, instant), logs);
  }

  // ---------------------------------------------------------------- total quantity

  /** The quantities of a list of rows added up as numbers, text read the way the form reads
      it (`parseFloat(x) || 0`). */
  function QuantitySum(items: seq<Item>): real {
    if items == [] then 0.0
    else QuantitySum(items[..|items| - 1]) + Worksheet.Value(items[|items| - 1].quantity)
  }

  /** Total quantity over all logs, every quantity counted as a number. */
  function TotalItems(logs: seq<DailyLog>): real {
    if logs == [] then 0.0 else TotalItems(logs[..|logs| - 1]) + QuantitySum(logs[|logs| - 1].items)
  }

  /** The numeric total quantity is additive over concatenated lists of logs. */
  lemma {:induction false} TotalItemsAppend(a: seq<DailyLog>, b: seq<DailyLog>)
    ensures TotalItems(a + b) == TotalItems(a) + TotalItems(b)
    decreases |b|
  {
    if b == [] {
      assert a + b == a;
    } else {
      assert (a + b)[..|a + b| - 1] == a + b[..|b| - 1];
      TotalItemsAppend(a, b[..|b| - 1]);
    }
  }

  /** The value of the source's `+` when the running sum is a number or has already turned
      into a string: once a string appears, `+` concatenates and the result stays a string. */
  datatype JsSum = Numeric(value: real) | Concatenated

  function JsAdd(acc: JsSum, operand: JsSum): JsSum {
    match (acc, operand)
    case (Numeric(x), Numeric(y)) => Numeric(x + y)
    case _ => Concatenated
  }

  function AsJs(a: Amount): JsSum {
    match a
    case Num(n) => Numeric(n)
    case Text(_) => Concatenated
  }

  /** `items.reduce((s, i) => s + i.quantity, 0)` as written. */
  function QuantitySumAsWritten(items: seq<Item>): JsSum {
    if items == [] then Numeric(0.0)
    else JsAdd(QuantitySumAsWritten(items[..|items| - 1]), AsJs(items[|items| - 1].quantity))
  }

  /** `totalItems` as written. */
  function TotalItemsAsWritten(logs: seq<DailyLog>): JsSum {
    if logs == [] then Numeric(0.0)
    else JsAdd(TotalItemsAsWritten(logs[..|logs| - 1]), QuantitySumAsWritten(logs[|logs| - 1].items))
  }

  predicate HasTextQuantity(items: seq<Item>) {
    exists k :: 0 <= k < |items| && items[k].quantity.Text?
  }

  lemma {:induction false} QuantitySumAsWrittenIff(items: seq<Item>)
    ensures QuantitySumAsWritten(items).Concatenated? <==> HasTextQuantity(items)
    ensures !HasTextQuantity(items) ==> QuantitySumAsWritten(items) == Numeric(QuantitySum(items))
  {
    if items != [] {
      var init := items[..|items| - 1];
      QuantitySumAsWrittenIff(init);
      assert HasTextQuantity(items) <==> HasTextQuantity(init) || items[|items| - 1].quantity.Text? by {
        if HasTextQuantity(init) {
          var k :| 0 <= k < |init| && init[k].quantity.Text?;
          assert items[k] == init[k];
        }
        if HasTextQuantity(items) {
          var k :| 0 <= k < |items| && items[k].quantity.Text?;
          if k < |init| { assert init[k] == items[k]; }
        }
      }
    }
  }

  /** The as-written total quantity is a number exactly when no row of any log holds a typed
      (text) quantity, and it then equals the numeric total; one typed quantity anywhere turns
      it into a concatenated string. */
  lemma {:induction false} TotalItemsAsWrittenIff(logs: seq<DailyLog>)
    ensures TotalItemsAsWritten(logs).Numeric? <==>
            forall j :: 0 <= j < |logs| ==> !HasTextQuantity(logs[j].items)
    ensures TotalItemsAsWritten(logs).Numeric? ==> TotalItemsAsWritten(logs) == Numeric(TotalItems(logs))
  {
    if logs != [] {
      var init := logs[..|logs| - 1];
      var last := logs[|logs| - 1];
      TotalItemsAsWrittenIff(init);
      QuantitySumAsWrittenIff(last.items);
      assert (forall j :: 0 <= j < |logs| ==> !HasTextQuantity(logs[j].items)) <==>
             (forall j :: 0 <= j < |init| ==> !HasTextQuantity(init[j].items)) && !HasTextQuantity(last.items) by {
        forall j | 0 <= j < |init| ensures init[j] == logs[j] {}
      }
    }
  }

  /** A log entered through the form after typing a quantity of 5: the as-written total
      quantity is a string (`0 + "5"`), while the numeric total is 5. */
  lemma TypedQuantityConcatenates()
    ensures var row := Worksheet.BlankRow.(name := "Beef", quantity := Text("5"));
            var log := DailyLog("1", "", Meat, "", [row], 0.0, "", Stocked, None);
            TotalItemsAsWritten([log]) == Concatenated && TotalItems([log]) == 5.0
  {
    var row := Worksheet.BlankRow.(name := "Beef", quantity := Text("5"));
    var log := DailyLog("1", "", Meat, "", [row], 0.0, "", Stocked, None);
    assert [log][..0] == [] && [row][..0] == [];
    assert JsText.AllDigits("5") by { assert JsText.IsDigit('5'); }
    JsText.ParseDigits("5");
    assert JsText.DigitsValue("5") == 5 by { assert "5"[..0] == ""; }
    assert Worksheet.Value(row.quantity) == 5.0;
    assert QuantitySum([row]) == 5.0;
  }

  // ---------------------------------------------------------------- suppliers

  /** `new Set(logs.map(l => l.supplier))`. */
  function Suppliers(logs: seq<DailyLog>): (r: set<string>)
    ensures forall x :: x in r <==> exists j :: 0 <= j < |logs| && logs[j].supplier == x
    ensures |r| <= |logs|
  {
    if logs == [] then {}
    else
      var init := Suppliers(logs[..|logs| - 1]);
      assert forall j :: 0 <= j < |logs| - 1 ==> logs[..|logs| - 1][j] == logs[j];
      init + {logs[|logs| - 1].supplier}
  }

  /** The number of distinct suppliers: at most one per log, and 0 exactly when there are no
      logs. */
  function UniqueSuppliers(logs: seq<DailyLog>): (n: nat)
    ensures n <= |logs|
    ensures n == 0 <==> logs == []
  {
    var s := Suppliers(logs);
    assert logs != [] ==> logs[0].supplier in s;
    |s|
  }

  // ---------------------------------------------------------------- chart

  /** One point of the spending chart. */
  datatype ChartPoint = ChartPoint(date: string, cost: real)

  /** `data.map(log => ({ date: log.date, cost: log.totalCost }))`. */
  function ChartData(data: seq<DailyLog>): (points: seq<ChartPoint>)
    ensures |points| == |data|
    ensures forall k :: 0 <= k < |data| ==> points[k] == ChartPoint(data[k].date, data[k].totalCost)
  {
    if data == [] then [] else [ChartPoint(data[0].date, data[0].totalCost)] + ChartData(data[1..])
  }
}
