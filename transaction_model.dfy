/** The ledger record: its enums, the quantity default and minimum, and the
    required paths. Records are only ever appended to the ledger. */
module TransactionModel {
  import opened Common

  const TxTypes: seq<string> := ["buy", "sell", "vet", "use"]
  const TxItemTypes: seq<string> := ["animal", "inventory"]

  /** A stored ledger record. `kind` is the schema's `type` path. */
  datatype Transaction = Transaction(
    userId: Id,
    kind: string,
    itemType: string,
    itemId: Id,
    itemName: string,
    amount: int,
    quantity: int,
    description: string,
    createdAt: int)

  /** What the schema guarantees of every stored record. */
  predicate TxValid(t: Transaction) {
    && t.kind in TxTypes
    && t.itemType in TxItemTypes
    && t.itemName != ""
    && t.quantity >= 1
  }

  /** The values a controller passes to Transaction.create; `quantity` may be left out. */
  datatype TxInput = TxInput(
    userId: Id,
    kind: string,
    itemType: string,
    itemId: Id,
    itemName: string,
    amount: int,
    quantity: Option<int>,
    description: string)

  datatype Created = Created(tx: Transaction) | Rejected(errors: seq<string>)

  /** Transaction.create at time `now`: the lowercase and trim setters, the quantity default of 1,
      then the validators; the paths that fail are reported in schema order. */
  function CreateTransaction(input: TxInput, now: int): (r: Created)
    ensures r.Created? ==> TxValid(r.tx)
    ensures r.Created? ==>
      && r.tx.userId == input.userId && r.tx.itemId == input.itemId
      && r.tx.kind == ToLower(input.kind) && r.tx.itemType == ToLower(input.itemType)
      && r.tx.itemName == input.itemName && r.tx.amount == input.amount
      && r.tx.quantity == input.quantity.GetOr(1)
      && r.tx.description == Trim(input.description) && r.tx.createdAt == now
    ensures r.Rejected? <==>
      ToLower(input.kind) !in TxTypes || ToLower(input.itemType) !in TxItemTypes
      || input.itemName == "" || input.quantity.GetOr(1) < 1
    ensures r.Rejected? ==> r.errors != []
  {
    var t := Transaction(input.userId, ToLower(input.kind), ToLower(input.itemType), input.itemId,
                         input.itemName, input.amount, input.quantity.GetOr(1), Trim(input.description), now);
    var errs :=
      (if t.kind in TxTypes then [] else ["type"])
      + (if t.itemType in TxItemTypes then [] else ["itemType"])
      + (if t.itemName != "" then [] else ["itemName"])
      + (if t.quantity >= 1 then [] else ["quantity"]);
    if errs == [] then Created(t) else Rejected(errs)
  }

  /** The enum values are already lower case, so the lowercase setter leaves them alone. */
  lemma EnumsAreLowerCase(s: string)
    requires s in TxTypes || s in TxItemTypes
    ensures ToLower(s) == s
  {
    assert forall i :: 0 <= i < |s| ==> !('A' <= s[i] <= 'Z');
    LowerCharwise(s, s);
  }

  /** A record with enum values, a name and a positive quantity is always accepted, as given. */
  lemma CreateTransactionAccepts(input: TxInput, now: int)
    requires input.kind in TxTypes && input.itemType in TxItemTypes
    requires input.itemName != "" && input.quantity.GetOr(1) >= 1
    ensures CreateTransaction(input, now) == Created(Transaction(
      input.userId, input.kind, input.itemType, input.itemId, input.itemName, input.amount,
      input.quantity.GetOr(1), Trim(input.description), now))
  {
    EnumsAreLowerCase(input.kind);
    EnumsAreLowerCase(input.itemType);
  }

  /** For enum values and a name, the schema's only remaining check is the quantity minimum. */
  lemma CreateTransactionOutcome(input: TxInput, now: int)
    requires input.kind in TxTypes && input.itemType in TxItemTypes && input.itemName != ""
    ensures CreateTransaction(input, now).Created? <==> input.quantity.GetOr(1) >= 1
    ensures CreateTransaction(input, now).Created? ==> CreateTransaction(input, now).tx == Transaction(
      input.userId, input.kind, input.itemType, input.itemId, input.itemName, input.amount,
      input.quantity.GetOr(1), Trim(input.description), now)
  {
    EnumsAreLowerCase(input.kind);
    EnumsAreLowerCase(input.itemType);
  }

  /** A record created without a quantity records one item. */
  lemma QuantityDefaultsToOne(input: TxInput, now: int)
    requires input.quantity.None?
    requires ToLower(input.kind) in TxTypes && ToLower(input.itemType) in TxItemTypes && input.itemName != ""
    ensures CreateTransaction(input, now).Created?
    ensures CreateTransaction(input, now).tx.quantity == 1
  {
  }

  /** Every ledger record the controllers can have appended satisfies the schema. */
  predicate LedgerValid(ledger: seq<Transaction>) {
    forall k :: 0 <= k < |ledger| ==> TxValid(ledger[k])
  }
}
