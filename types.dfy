/** Records shared by the entry form, the storage adapter and the dashboard (types.ts). */
module Types {

  datatype Option<+T> = None | Some(value: T)

  /** A numeric field of a line item as the form holds it: a number (from a preset or a
      recognition result), or the raw text of an input box once the user has typed into it,
      since the edit handler stores the input's string value unconverted. */
  datatype Amount = Num(n: real) | Text(s: string)

  /** ProcurementItem: one line of a receipt. `total` is always a number. */
  datatype Item = Item(
    name: string,
    specification: string,
    quantity: Amount,
    unit: string,
    unitPrice: Amount,
    total: real)

  /** CategoryType. */
  datatype Category = Meat | Vegetables | DryGoods | Alcohol | Consumables | Other

  datatype Status = Stocked | Pending | Issue

  /** An image attached to a log; only the fields the storage adapter reads. */
  datatype AttachedImage = AttachedImage(id: string, compressedSize: Option<nat>)

  /** A persisted procurement record. `attachments` is optional. */
  datatype DailyLog = DailyLog(
    id: string,
    date: string,
    category: Category,
    supplier: string,
    items: seq<Item>,
    totalCost: real,
    notes: string,
    status: Status,
    attachments: Option<seq<AttachedImage>>)

  /** A log before storage has given it an id: what the entry form hands to its caller. */
  datatype LogDraft = LogDraft(
    date: string,
    category: Category,
    supplier: string,
    items: seq<Item>,
    totalCost: real,
    notes: string,
    status: Status)

  /** What the external receipt recognition returns. */
  datatype ParseResult = ParseResult(
    supplier: string,
    items: seq<Item>,
    totalCost: real,
    notes: string,
    status: Status)
}
