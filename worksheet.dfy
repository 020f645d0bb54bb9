/** The pure part of the entry form (components/EntryForm.tsx): the category presets, the
    line-item edits, the grand total, the merge of a recognition result and the assembly
    of the log that is handed to storage. Each is a function over the worksheet's values;
    the wizard class in module Entry calls them from its handlers. */
module Worksheet {

  import opened Types
  import JsText

  /** Supplier written into a log whose supplier field was left empty. */
  const UnknownSupplier: string := "未知供应商"

  /** The zero-valued row that `addNewRow` appends and an empty category starts with. */
  const BlankRow: Item := Item("", "", Num(0.0), "", Num(0.0), 0.0)

  /** Supplier, notes and rows: the editable part of the form, and the shape of a preset. */
  datatype Sheet = Sheet(supplier: string, notes: string, items: seq<Item>)

  /** The numeric value of a field, as `parseFloat(x) || 0` computes it: text that is not a
      number counts as 0. */
  function Value(a: Amount): real {
    match a
    case Num(n) => n
    case Text(s) =>
      match JsText.ParseFloat(s)
      case None => 0.0
      case Some(v) => v
  }

  /** A row is kept at submission and by the merge when its trimmed name is not empty. */
  predicate IsNamed(it: Item) {
    JsText.Trim(it.name) != ""
  }

  /** Quantity times unit price, each parsed as the form parses it. */
  function LineTotal(quantity: Amount, unitPrice: Amount): real {
    Value(quantity) * Value(unitPrice)
  }

  /** Every row's total is its quantity times its unit price. */
  predicate Consistent(items: seq<Item>) {
    forall k :: 0 <= k < |items| ==> items[k].total == LineTotal(items[k].quantity, items[k].unitPrice)
  }

  // ---------------------------------------------------------------- presets

  function Row(name: string, spec: string, quantity: real, unit: string, price: real, total: real): Item {
    Item(name, spec, Num(quantity), unit, Num(price), total)
  }

  /** MOCK_PRESETS: the demonstration data a category starts with; `Other` has none. */
  function Preset(cat: Category): (p: Option<Sheet>)
    ensures p.Some? <==> cat != Other
    ensures p.Some? ==> |p.value.items| >= 2 && p.value.supplier != ""
  {
    match cat
    case Meat => Some(Sheet("双汇冷鲜肉直供", "今日五花肉品质不错，已核对重量。", [
        Row("精品五花肉", "带皮", 20.0, "kg", 28.5, 570.0),
        Row("猪肋排", "精修", 15.0, "kg", 32.0, 480.0)]))
    case Vegetables => Some(Sheet("城南蔬菜批发市场", "土豆这批个头较小。", [
        Row("本地土豆", "黄心", 50.0, "斤", 1.2, 60.0),
        Row("青椒", "薄皮", 20.0, "斤", 4.5, 90.0),
        Row("大白菜", "新鲜", 30.0, "斤", 0.8, 24.0)]))
    case Alcohol => Some(Sheet("雪花啤酒总代", "周末备货，增加库存。", [
        Row("雪花勇闯天涯", "500ml*12", 50.0, "箱", 38.0, 1900.0),
        Row("百威纯生", "330ml*24", 20.0, "箱", 120.0, 2400.0)]))
    case DryGoods => Some(Sheet("粮油批发中心", "", [
        Row("金龙鱼大豆油", "20L/桶", 5.0, "桶", 210.0, 1050.0),
        Row("特一粉", "25kg", 10.0, "袋", 95.0, 950.0)]))
    case Consumables => Some(Sheet("酒店用品城", "补货一次性用品。", [
        Row("抽纸", "200抽", 100.0, "包", 2.5, 250.0),
        Row("洗洁精", "5kg/桶", 4.0, "桶", 15.0, 60.0)]))
    case Other => None
  }

  /** Every preset row's total agrees with its quantity and unit price, and every preset has a
      named row. */
  lemma PresetsConsistent(cat: Category)
    requires Preset(cat).Some?
    ensures Consistent(Preset(cat).value.items)
    ensures |Preset(cat).value.items| > 0
  {
  }

  /** The worksheet a category selection starts from: the category's preset when it has rows,
      otherwise empty supplier and notes and a single blank row. It never depends on what the
      worksheet held before, and it always has at least one row, every one consistent. */
  function Seed(cat: Category): (s: Sheet)
    ensures |s.items| >= 1 && Consistent(s.items)
    ensures Preset(cat).Some? && |Preset(cat).value.items| > 0 ==> s == Preset(cat).value
    ensures (Preset(cat).None? || |Preset(cat).value.items| == 0) ==> s == Sheet("", "", [BlankRow])
  {
    var preset := match Preset(cat) case Some(p) => p case None => Sheet("", "", []);
    if |preset.items| > 0 then
      PresetsConsistent(cat);
      preset
    else Sheet("", "", [BlankRow])
  }

  // ---------------------------------------------------------------- row edits

  /** The fields the worksheet lets the user type into. */
  datatype Field = Name | Specification | Unit | Quantity | UnitPrice

  /** `{ ...item, [field]: value }`, with the total recomputed when a number changed. */
  function EditItem(it: Item, field: Field, value: string): Item {
    match field
    case Name => it.(name := value)
    case Specification => it.(specification := value)
    case Unit => it.(unit := value)
    case Quantity =>
      var u := it.(quantity := Text(value));
      u.(total := LineTotal(u.quantity, u.unitPrice))
    case UnitPrice =>
      var u := it.(unitPrice := Text(value));
      u.(total := LineTotal(u.quantity, u.unitPrice))
  }

  /** handleItemChange on the row list: only row `index` changes, and in it only the edited
      field, plus the total when quantity or unit price was edited; the new total is the
      product of the two parsed numbers, either counting 0 when it does not parse. */
  function ChangeItem(items: seq<Item>, index: nat, field: Field, value: string): (r: seq<Item>)
    requires index < |items|
    ensures |r| == |items|
    ensures forall k :: 0 <= k < |items| && k != index ==> r[k] == items[k]
    ensures r[index].name == (if field == Name then value else items[index].name)
    ensures r[index].specification == (if field == Specification then value else items[index].specification)
    ensures r[index].unit == (if field == Unit then value else items[index].unit)
    ensures r[index].quantity == (if field == Quantity then Text(value) else items[index].quantity)
    ensures r[index].unitPrice == (if field == UnitPrice then Text(value) else items[index].unitPrice)
    ensures r[index].total ==
      (if field == Quantity || field == UnitPrice then LineTotal(r[index].quantity, r[index].unitPrice) else items[index].total)
  {
    items[index := EditItem(items[index], field, value)]
  }

  /** Editing keeps every row's total equal to quantity times unit price. */
  lemma ChangeItemKeepsConsistent(items: seq<Item>, index: nat, field: Field, value: string)
    requires index < |items| && Consistent(items)
    ensures Consistent(ChangeItem(items, index, field, value))
  {
    var r := ChangeItem(items, index, field, value);
    forall k | 0 <= k < |r|
      ensures r[k].total == LineTotal(r[k].quantity, r[k].unitPrice)
    {
      if k != index {
        assert r[k] == items[k];
      }
    }
  }

  /** `items.filter((_, i) => i !== index)`: the rows at every position but `index`. */
  function DropIndex(items: seq<Item>, index: int): (r: seq<Item>)
    ensures 0 <= index < |items| ==> r == items[..index] + items[index + 1..]
    ensures !(0 <= index < |items|) ==> r == items
  {
    if items == [] then []
    else (if index == 0 then [] else [items[0]]) + DropIndex(items[1..], index - 1)
  }

  /** Removing a row keeps the remaining rows consistent. */
  lemma DropIndexKeepsConsistent(items: seq<Item>, index: int)
    requires Consistent(items)
    ensures Consistent(DropIndex(items, index))
  {
    var r := DropIndex(items, index);
    if 0 <= index < |items| {
      forall k | 0 <= k < |r|
        ensures r[k].total == LineTotal(r[k].quantity, r[k].unitPrice)
      {
        if k < index { assert r[k] == items[k]; } else { assert r[k] == items[k + 1]; }
      }
    }
  }

  // ---------------------------------------------------------------- named rows and totals

  /** `items.filter(i => i.name.trim() !== '')`. */
  function Named(items: seq<Item>): (r: seq<Item>)
    ensures |r| <= |items|
    ensures forall k :: 0 <= k < |r| ==> IsNamed(r[k])
    ensures forall x :: x in r <==> x in items && IsNamed(x)
  {
    if items == [] then []
    else (if IsNamed(items[0]) then [items[0]] else []) + Named(items[1..])
  }

  /** Filtering distributes over concatenation; with `Named([x])` this pins the filter down:
      the named rows, each once, in their original order. */
  lemma {:induction false} NamedAppend(a: seq<Item>, b: seq<Item>)
    ensures Named(a + b) == Named(a) + Named(b)
  {
    if a == [] {
      assert a + b == b;
    } else {
      assert (a + b)[1..] == a[1..] + b;
      NamedAppend(a[1..], b);
    }
  }

  /** Filtering twice is filtering once. */
  lemma {:induction false} NamedIdempotent(items: seq<Item>)
    ensures Named(Named(items)) == Named(items)
  {
    if items != [] {
      var head := if IsNamed(items[0]) then [items[0]] else [];
      NamedAppend(head, Named(items[1..]));
      NamedIdempotent(items[1..]);
      assert Named(head) == head;
    }
  }

  /** A row with a non-blank name exists exactly when the filter keeps something: the
      condition under which the worksheet may be submitted. */
  lemma CanSubmitIff(items: seq<Item>)
    ensures |Named(items)| > 0 <==> exists k :: 0 <= k < |items| && IsNamed(items[k])
  {
    if exists k :: 0 <= k < |items| && IsNamed(items[k]) {
      var k :| 0 <= k < |items| && IsNamed(items[k]);
      assert items[k] in Named(items);
    }
  }

  /** `items.reduce((acc, curr) => acc + curr.total, 0)`. Sums are exact, so folding from
      the right gives the same value as the source's left fold. */
  function GrandTotal(items: seq<Item>): (r: real)
    ensures (forall k :: 0 <= k < |items| ==> items[k].total >= 0.0) ==> r >= 0.0
  {
    if items == [] then 0.0 else items[0].total + GrandTotal(items[1..])
  }

  lemma {:induction false} GrandTotalAppend(a: seq<Item>, b: seq<Item>)
    ensures GrandTotal(a + b) == GrandTotal(a) + GrandTotal(b)
  {
    if a == [] {
      assert a + b == b;
    } else {
      assert (a + b)[1..] == a[1..] + b;
      GrandTotalAppend(a[1..], b);
    }
  }

  /** Blank-named rows contribute to the grand total; when every one of them totals 0 the
      grand total equals the total of the named rows alone. */
  lemma {:induction false} GrandTotalOfNamed(items: seq<Item>)
    requires forall k :: 0 <= k < |items| && !IsNamed(items[k]) ==> items[k].total == 0.0
    ensures GrandTotal(Named(items)) == GrandTotal(items)
  {
    if items != [] {
      var head := if IsNamed(items[0]) then [items[0]] else [];
      GrandTotalAppend(head, Named(items[1..]));
      GrandTotalOfNamed(items[1..]);
    }
  }

  // ---------------------------------------------------------------- recognition merge

  /** The merge of a recognition result into the worksheet: keep the named rows, append the
      recognised rows, and fill supplier and notes only where they are still empty. */
  function Merge(s: Sheet, result: ParseResult): (m: Sheet)
    ensures |m.items| == |Named(s.items)| + |result.items|
    ensures m.items[..|Named(s.items)|] == Named(s.items)
    ensures m.items[|Named(s.items)|..] == result.items
    ensures forall x :: x in s.items && IsNamed(x) ==> x in m.items
    ensures s.supplier != "" ==> m.supplier == s.supplier
    ensures s.supplier == "" ==> m.supplier == result.supplier
    ensures s.notes != "" ==> m.notes == s.notes
    ensures s.notes == "" ==> m.notes == result.notes
  {
    var supplier := if s.supplier == "" && result.supplier != "" then result.supplier else s.supplier;
    var notes := if s.notes == "" && result.notes != "" then result.notes else s.notes;
    Sheet(supplier, notes, Named(s.items) + result.items)
  }

  /** After a merge the named rows are the old named rows followed by the recognised named
      rows: no blank row of the worksheet survives and no named one is lost. */
  lemma MergeNamedRows(s: Sheet, result: ParseResult)
    ensures Named(Merge(s, result).items) == Named(s.items) + Named(result.items)
  {
    NamedAppend(Named(s.items), result.items);
    NamedIdempotent(s.items);
  }

  /** A worksheet that could be submitted still can after a merge. */
  lemma MergeKeepsSubmittable(s: Sheet, result: ParseResult)
    ensures |Named(s.items)| > 0 ==> |Named(Merge(s, result).items)| > 0
  {
    MergeNamedRows(s, result);
  }

  /** A supplier (or notes) already filled in survives any number of merges; an empty one
      takes the first non-empty recognised value and keeps it. */
  lemma MergeFillsOnlyOnce(s: Sheet, r1: ParseResult, r2: ParseResult)
    ensures s.supplier != "" ==> Merge(Merge(s, r1), r2).supplier == s.supplier
    ensures s.supplier == "" && r1.supplier != "" ==> Merge(Merge(s, r1), r2).supplier == r1.supplier
    ensures s.notes != "" ==> Merge(Merge(s, r1), r2).notes == s.notes
    ensures s.notes == "" && r1.notes != "" ==> Merge(Merge(s, r1), r2).notes == r1.notes
  {
  }

  /** The merge keeps the totals consistent when the recognised rows are. */
  lemma MergeKeepsConsistent(s: Sheet, result: ParseResult)
    requires Consistent(s.items) && Consistent(result.items)
    ensures Consistent(Merge(s, result).items)
  {
    var m := Merge(s, result).items;
    var n := |Named(s.items)|;
    forall k | 0 <= k < |m|
      ensures m[k].total == LineTotal(m[k].quantity, m[k].unitPrice)
    {
      if k < n {
        assert m[k] == m[..n][k];
        assert m[k] in s.items;
      } else {
        assert m[k] == m[n..][k - n];
      }
    }
  }

  /** A worksheet of placeholder rows merged with a result that recognised no rows is left
      with no row at all: the merge does not keep the at-least-one-row rule. */
  lemma MergeCanEmptyWorksheet()
    ensures Merge(Sheet("", "", [BlankRow]), ParseResult("", [], 0.0, "", Stocked)).items == []
  {
    assert !IsNamed(BlankRow) by { JsText.TrimEmptyIff(""); }
  }

  // ---------------------------------------------------------------- log assembly

  /** handleSummaryConfirm: the named rows, the supplier or the "unknown supplier" text when it
      is empty, status Stocked, and as total cost the grand total over ALL rows. */
  function Assemble(s: Sheet, category: Category, now: string): (d: LogDraft)
    ensures d.items == Named(s.items)
    ensures forall k :: 0 <= k < |d.items| ==> IsNamed(d.items[k])
    ensures d.supplier != ""
    ensures s.supplier != "" ==> d.supplier == s.supplier
    ensures s.supplier == "" ==> d.supplier == UnknownSupplier
    ensures d.totalCost == GrandTotal(s.items)
    ensures d.date == now && d.category == category && d.notes == s.notes && d.status == Stocked
  {
    LogDraft(now, category, if s.supplier == "" then UnknownSupplier else s.supplier,
             Named(s.items), GrandTotal(s.items), s.notes, Stocked)
  }

  /** When every blank-named row totals 0, the log's total cost is the sum of its own rows. */
  lemma AssembledTotalMatchesItems(s: Sheet, category: Category, now: string)
    requires forall k :: 0 <= k < |s.items| && !IsNamed(s.items[k]) ==> s.items[k].total == 0.0
    ensures Assemble(s, category, now).totalCost == GrandTotal(Assemble(s, category, now).items)
  {
    GrandTotalOfNamed(s.items);
  }

  /** A blank-named row with a non-zero total is left out of the log's rows but still counted
      in its total cost. */
  lemma AssembledTotalCountsBlankRows()
    ensures var s := Sheet("", "", [BlankRow.(quantity := Text("2"), unitPrice := Text("3"), total := 6.0),
                                    Row("Beef", "", 10.0, "kg", 5.0, 50.0)]);
            var d := Assemble(s, Other, "");
            |d.items| == 1 && d.totalCost == 56.0 && GrandTotal(d.items) == 50.0
  {
    var blank := BlankRow.(quantity := Text("2"), unitPrice := Text("3"), total := 6.0);
    var beef := Row("Beef", "", 10.0, "kg", 5.0, 50.0);
    assert !IsNamed(blank) by { JsText.TrimEmptyIff(""); }
    assert IsNamed(beef) by { JsText.TrimEmptyIff("Beef"); }
    assert Named([blank, beef]) == [beef] by {
      assert [blank, beef][1..] == [beef];
      assert Named([beef]) == [beef];
    }
    assert GrandTotal([beef]) == 50.0 by { assert [beef][1..] == []; }
    assert GrandTotal([blank, beef]) == 56.0 by {
      assert [blank, beef][1..] == [beef];
    }
  }
}
