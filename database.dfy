/** The persistent state the controllers read and write: each user's
    balance, the animal and inventory collections keyed by document id, and
    the append-only ledger. Ids are handed out in increasing order, so id
    order is creation order, the order in which `find` returns documents. */
module Database {
  import opened Common
  import opened AnimalModel
  import opened InventoryModel
  import opened TransactionModel

  /** The ids below `bound` whose record satisfies `p`, in increasing order. */
  function Matching<R>(m: map<Id, R>, p: R -> bool, bound: nat): (r: seq<Id>)
    ensures forall k :: 0 <= k < |r| ==> r[k] in m && p(m[r[k]]) && r[k] < bound
    ensures forall id :: id in m && p(m[id]) && id < bound ==> id in r
    ensures forall k, l :: 0 <= k < l < |r| ==> r[k] < r[l]
  {
    if bound == 0 then []
    else
      var prefix := Matching(m, p, bound - 1);
      if bound - 1 in m && p(m[bound - 1]) then prefix + [bound - 1] else prefix
  }

  /** The first id below `bound`, in increasing order, of a record of `user` of type `kind`. */
  function FirstOfType(items: map<Id, ItemRecord>, user: Id, kind: string, bound: nat): (r: Option<Id>)
    ensures r.Some? ==> r.value in items && r.value < bound && items[r.value].userId == user && items[r.value].kind == kind
  {
    if bound == 0 then None
    else
      match FirstOfType(items, user, kind, bound - 1)
      case Some(id) => Some(id)
      case None =>
        if bound - 1 in items && items[bound - 1].userId == user && items[bound - 1].kind == kind then Some(bound - 1)
        else None
  }

  /** The search finds a record of the user and type, the first such in id order, and fails only
      when there is none below the bound. */
  lemma {:induction false} FirstOfTypeSpec(items: map<Id, ItemRecord>, user: Id, kind: string, bound: nat)
    ensures FirstOfType(items, user, kind, bound).Some? ==>
      var id := FirstOfType(items, user, kind, bound).value;
      forall j :: j in items && j < id ==> !(items[j].userId == user && items[j].kind == kind)
    ensures FirstOfType(items, user, kind, bound).None? <==>
      forall j :: j in items && j < bound ==> !(items[j].userId == user && items[j].kind == kind)
  {
    if bound > 0 {
      FirstOfTypeSpec(items, user, kind, bound - 1);
    }
  }

  class Db {
    var currency: map<Id, int>
    var animals: map<Id, AnimalRecord>
    var items: map<Id, ItemRecord>
    var ledger: seq<Transaction>
    var nextId: nat

    /** A user keeps at most one inventory record of each type. */
    predicate OneItemPerType()
      reads this
    {
      forall i, j :: i in items && j in items && items[i].userId == items[j].userId && items[i].kind == items[j].kind ==> i == j
    }

    /** What every stored document satisfies, and ids below the next one to be handed out. */
    predicate Valid()
      reads this
    {
      && (forall u :: u in currency ==> currency[u] >= 0)
      && (forall id :: id in animals ==> Stored(animals[id]) && id < nextId)
      && (forall id :: id in items ==> ItemSchemaValid(items[id]) && id < nextId)
      && OneItemPerType()
      && LedgerValid(ledger)
    }

    /** A store holding only user accounts with their balances. */
    constructor (accounts: map<Id, int>)
      requires forall u :: u in accounts ==> accounts[u] >= 0
      ensures Valid()
      ensures currency == accounts && animals == map[] && items == map[] && ledger == [] && nextId == 0
    {
      currency, animals, items, ledger, nextId := accounts, map[], map[], [], 0;
    }

    /** Animal.findOne({ _id, userId }): the animal only when the requester owns it. */
    function AnimalOf(user: Id, id: Id): (r: Option<AnimalRecord>)
      reads this
      ensures r.Some? <==> id in animals && animals[id].userId == user
      ensures r.Some? ==> r.value == animals[id]
    {
      if id in animals && animals[id].userId == user then Some(animals[id]) else None
    }

    /** Inventory.findOne({ _id, userId }). */
    function ItemOf(user: Id, id: Id): (r: Option<ItemRecord>)
      reads this
      ensures r.Some? <==> id in items && items[id].userId == user
      ensures r.Some? ==> r.value == items[id]
    {
      if id in items && items[id].userId == user then Some(items[id]) else None
    }

    /** Animal.find({ userId }) as ids, in creation order. */
    function AnimalsOf(user: Id): (r: seq<Id>)
      reads this
      requires Valid()
      ensures forall k :: 0 <= k < |r| ==> r[k] in animals && animals[r[k]].userId == user
      ensures forall id :: id in animals && animals[id].userId == user ==> id in r
      ensures forall k, l :: 0 <= k < l < |r| ==> r[k] < r[l]
    {
      Matching(animals, (a: AnimalRecord) => a.userId == user, nextId)
    }

    /** Inventory.find({ userId }) as ids, in creation order. */
    function ItemsOf(user: Id): (r: seq<Id>)
      reads this
      requires Valid()
      ensures forall k :: 0 <= k < |r| ==> r[k] in items && items[r[k]].userId == user
      ensures forall id :: id in items && items[id].userId == user ==> id in r
      ensures forall k, l :: 0 <= k < l < |r| ==> r[k] < r[l]
    {
      Matching(items, (it: ItemRecord) => it.userId == user, nextId)
    }

    /** Inventory.findOne({ userId, type }): the user's record of that type, if any. */
    function ItemOfType(user: Id, kind: string): (r: Option<Id>)
      reads this
      ensures r.Some? ==> r.value in items && items[r.value].userId == user && items[r.value].kind == kind
    {
      FirstOfType(items, user, kind, nextId)
    }

    /** user.save() after a balance change: refused, with nothing written, below the minimum of 0. */
    method SetBalance(user: Id, amount: int) returns (ok: bool)
      requires Valid()
      modifies this`currency
      ensures Valid()
      ensures ok <==> amount >= 0
      ensures currency == if ok then old(currency)[user := amount] else old(currency)
    {
      ok := amount >= 0;
      if ok {
        currency := currency[user := amount];
      }
    }

    /** Animal.create of a stored animal: it gets the next id. */
    method InsertAnimal(a: AnimalRecord) returns (id: Id)
      requires Valid() && Stored(a)
      modifies this`animals, this`nextId
      ensures Valid()
      ensures id == old(nextId) && animals == old(animals)[id := a] && nextId == old(nextId) + 1
    {
      id := nextId;
      animals := animals[id := a];
      nextId := nextId + 1;
    }

    /** animal.save() of a record that passed validation and the pre-save hook. */
    method UpdateAnimal(id: Id, a: AnimalRecord)
      requires Valid() && id in animals && Stored(a)
      modifies this`animals
      ensures Valid()
      ensures animals == old(animals)[id := a]
    {
      animals := animals[id := a];
    }

    /** deleteOne of an animal. */
    method DeleteAnimal(id: Id)
      requires Valid()
      modifies this`animals
      ensures Valid()
      ensures animals == old(animals) - {id}
    {
      animals := animals - {id};
    }

    /** doc.save() of an inventory record that keeps its owner and type. */
    method UpdateItem(id: Id, r: ItemRecord)
      requires Valid() && id in items && ItemSchemaValid(r)
      requires r.userId == items[id].userId && r.kind == items[id].kind
      modifies this`items
      ensures Valid()
      ensures items == old(items)[id := r]
    {
      items := items[id := r];
      assert OneItemPerType() by {
        assert forall j :: j in items ==> j in old(items) && items[j].userId == old(items)[j].userId && items[j].kind == old(items)[j].kind;
      }
    }

    /** Inventory.create of a valid record of a type its owner does not hold yet: it gets the next id. */
    method InsertItem(r: ItemRecord) returns (id: Id)
      requires Valid() && ItemSchemaValid(r)
      requires forall j :: j in items ==> !(items[j].userId == r.userId && items[j].kind == r.kind)
      modifies this`items, this`nextId
      ensures Valid()
      ensures id == old(nextId) && items == old(items)[id := r] && nextId == old(nextId) + 1
    {
      id := nextId;
      items := items[id := r];
      nextId := nextId + 1;
    }

    /** deleteOne of an inventory record. */
    method DeleteItem(id: Id)
      requires Valid()
      modifies this`items
      ensures Valid()
      ensures items == old(items) - {id}
    {
      items := items - {id};
    }

    /** Inventory.deleteMany({ userId, quantity: { $lte: 0 } }). */
    method DeleteEmptyItems(user: Id)
      requires Valid()
      modifies this`items
      ensures Valid()
      ensures items == map id | id in old(items) && !(old(items)[id].userId == user && old(items)[id].quantity <= 0) :: old(items)[id]
    {
      items := map id | id in items && !(items[id].userId == user && items[id].quantity <= 0) :: items[id];
    }

    /** Transaction.create of a record whose enum values and name are valid: the schema then
        checks only the quantity minimum, and the record is appended, trimmed and stamped, exactly
        when it passes. */
    method Create(input: TxInput, now: int) returns (ok: bool)
      requires Valid() && input.kind in TxTypes && input.itemType in TxItemTypes && input.itemName != ""
      modifies this`ledger
      ensures Valid()
      ensures ok <==> input.quantity.GetOr(1) >= 1
      ensures ledger == if ok then old(ledger) + [Transaction(input.userId, input.kind, input.itemType, input.itemId,
                                     input.itemName, input.amount, input.quantity.GetOr(1), Trim(input.description), now)]
                        else old(ledger)
    {
      CreateTransactionOutcome(input, now);
      var created := CreateTransaction(input, now);
      ok := created.Created?;
      if ok {
        Append(created.tx);
      }
    }

    /** Appending a record the schema accepted to the ledger. */
    method Append(t: Transaction)
      requires Valid() && TxValid(t)
      modifies this`ledger
      ensures Valid()
      ensures ledger == old(ledger) + [t]
    {
      ledger := ledger + [t];
    }
  }
}
