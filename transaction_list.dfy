/** The ledger listing's labels and signs. */
module TransactionList {
  import opened Common
  import opened AnimalModel
  import opened InventoryModel
  import opened TransactionModel
  import opened InventoryController
  import opened AnimalController

  const KnownLabels: seq<string> := ["Purchase", "Sale", "Vet Visit", "Used Item"]

  /** getTransactionTypeLabel: "Unknown" for an empty type, the label of the four ledger kinds,
      and any other type with its first letter upper-cased. */
  function TypeLabel(kind: string): (r: string)
    ensures kind == "" ==> r == "Unknown"
    ensures kind == "buy" ==> r == "Purchase"
    ensures kind == "sell" ==> r == "Sale"
    ensures kind == "vet" ==> r == "Vet Visit"
    ensures kind == "use" ==> r == "Used Item"
    ensures kind != "" && kind !in TxTypes ==> |r| == |kind| && r[0] == UpperChar(kind[0]) && r[1..] == kind[1..]
  {
    if kind == "" then "Unknown"
    else if kind == "buy" then "Purchase"
    else if kind == "sell" then "Sale"
    else if kind == "vet" then "Vet Visit"
    else if kind == "use" then "Used Item"
    else [UpperChar(kind[0])] + kind[1..]
  }

  /** Every record the schema accepts is shown with one of the four labels, a different one for
      each kind. */
  lemma StoredRecordsHaveKnownLabels(t: Transaction, u: Transaction)
    requires TxValid(t) && TxValid(u)
    ensures TypeLabel(t.kind) in KnownLabels
    ensures TypeLabel(t.kind) == TypeLabel(u.kind) <==> t.kind == u.kind
  {
  }

  /** isNegativeTransaction: whether the amount is shown with a minus sign. */
  predicate IsNegative(kind: string) {
    kind == "buy" || kind == "vet"
  }

  /** The sign matches what the recording operation did to the balance: the vet and purchase
      records, written after a debit, show a minus; the sale records, written after a credit,
      a plus. */
  lemma SignsOfControllerRecords(user: Id, id: Id, a: AnimalRecord, it: ItemRecord, q: int, amount: int, now: int)
    ensures IsNegative(VetRecord(user, id, a, amount, now).kind)
    ensures !IsNegative(AnimalSaleRecord(user, id, a, amount, now).kind)
    ensures !IsNegative(SaleRecord(user, id, it, q, amount, now).kind)
    ensures IsNegative(BuyRecord(user, id, it, q, amount, now).kind)
  {
  }
}
