/** The records the app passes between its store, its calculator and its
    pages. Prices are whole currency units; a bill line's per-person price is
    exact, so it is a `real`. */
module Types {

  datatype Option<T> = None | Some(value: T)

  datatype Item = Item(id: string, name: string, price: nat)

  datatype Diner = Diner(id: string, name: string, email: Option<string>, phone: Option<string>)

  /** One key of the assignment object: an item id and the ids of the diners
      who share that item, in the order they were added. */
  datatype Slot = Slot(itemId: string, dinerIds: seq<string>)

  /** The assignment object `{ [itemId]: dinerIds }`. A JavaScript object
      keeps its (non-numeric) keys in insertion order, so it is a sequence of
      slots whose item ids are distinct. */
  type Assignment = seq<Slot>

  datatype PayerInfo = PayerInfo(name: string, rut: string, bank: string, accountType: string, accountNumber: string)

  datatype User = User(
    id: string, email: string, phone: string, password: Option<string>,
    name: string, rut: string, bank: string, accountType: string, accountNumber: string)

  datatype HistoryEntry = HistoryEntry(
    id: string, date: string, restaurant: string, total: int,
    items: seq<Item>, diners: seq<Diner>, assignments: Assignment,
    payments: map<string, bool>)

  /** One line of a diner's bill: the item's name, what this diner pays for
      it and how many diners share it. */
  datatype BillLine = BillLine(name: string, price: real, sharedWith: nat)

  datatype DinerBill = DinerBill(diner: Diner, items: seq<BillLine>, subtotal: int, tip: int, total: int)
}
