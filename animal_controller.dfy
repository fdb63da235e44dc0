/** The animal endpoints. Every lookup is scoped to the requesting user; the
    vet visit and the sale move currency and append one ledger record. */
module AnimalController {
  import opened Common
  import opened AnimalModel
  import opened InventoryModel
  import opened TransactionModel
  import opened Database

  const AnimalNotFound: string := "Animal not found"
  const ItemNotFound: string := "Inventory item not found"
  const NotEnoughWater: string := "Not enough water in inventory"
  const ServerError: string := "Server error"
  /** The message of the TypeError raised when the user document is missing. */
  const NoUser: string := "Cannot read properties of null (reading 'currency')"

  datatype AnimalView = AnimalView(id: Id, animal: AnimalRecord, currentHealth: int)
  datatype AnimalList = AnimalList(count: int, data: seq<AnimalView>)
  datatype AnimalDetail = AnimalDetail(id: Id, animal: AnimalRecord, currentHealth: int, marketValue: int, ageInDays: int)
  datatype Doc = Doc(id: Id, animal: AnimalRecord)
  datatype CareResult = CareResult(animal: AnimalRecord, inventory: Option<ItemRecord>)
  datatype VetResult = VetResult(animal: AnimalRecord, currency: int)
  datatype SaleResult = SaleResult(sellingPrice: int, currency: int)

  /** The listing entries for `ids`, in that order, each with its current health. */
  function AnimalViewsOf(m: map<Id, AnimalRecord>, ids: seq<Id>, now: int): (r: seq<AnimalView>)
    requires forall k :: 0 <= k < |ids| ==> ids[k] in m
    ensures |r| == |ids|
    ensures forall k :: 0 <= k < |r| ==> r[k] == AnimalView(ids[k], m[ids[k]], CurrentHealth(m[ids[k]], now))
    ensures forall id :: id in ids ==> exists k :: 0 <= k < |r| && r[k].id == id
  {
    var r := seq(|ids|, k requires 0 <= k < |ids| => AnimalView(ids[k], m[ids[k]], CurrentHealth(m[ids[k]], now)));
    assert forall id :: id in ids ==> exists k :: 0 <= k < |r| && r[k].id == id by {
      forall id | id in ids
        ensures exists k :: 0 <= k < |r| && r[k].id == id
      {
        var k :| 0 <= k < |ids| && ids[k] == id;
        assert r[k].id == id;
      }
    }
    r
  }

  /** getAnimals: every animal of the user, once each and in creation order, with its current health. */
  function GetAnimals(db: Db, user: Id, now: int): (resp: Response<AnimalList>)
    reads db
    requires db.Valid()
    ensures resp.Success? && resp.status == 200 && resp.data.count == |resp.data.data|
    ensures forall k :: 0 <= k < |resp.data.data| ==>
      && resp.data.data[k].id in db.animals
      && resp.data.data[k].animal == db.animals[resp.data.data[k].id]
      && resp.data.data[k].animal.userId == user
      && resp.data.data[k].currentHealth == CurrentHealth(resp.data.data[k].animal, now)
    ensures forall id :: id in db.animals && db.animals[id].userId == user ==>
      exists k :: 0 <= k < |resp.data.data| && resp.data.data[k].id == id
    ensures forall k, l :: 0 <= k < l < |resp.data.data| ==> resp.data.data[k].id < resp.data.data[l].id
  {
    var ids := db.AnimalsOf(user);
    var views := AnimalViewsOf(db.animals, ids, now);
    Success(200, AnimalList(|views|, views))
  }

  /** getAnimal: the user's animal with its derived values, or 404. */
  function GetAnimal(db: Db, user: Id, id: Id, now: int): (resp: Response<AnimalDetail>)
    reads db
    ensures db.AnimalOf(user, id).None? ==> resp == Failure(404, [AnimalNotFound])
    ensures db.AnimalOf(user, id).Some? ==>
      && resp.Success? && resp.status == 200
      && resp.data.animal == db.animals[id] && resp.data.id == id
      && resp.data.currentHealth == CurrentHealth(db.animals[id], now)
      && resp.data.marketValue == MarketValue(db.animals[id], now)
      && resp.data.ageInDays == AgeInDays(db.animals[id], now)
  {
    match db.AnimalOf(user, id)
    case None => Failure(404, [AnimalNotFound])
    case Some(a) => Success(200, AnimalDetail(id, a, CurrentHealth(a, now), MarketValue(a, now), AgeInDays(a, now)))
  }

  /** createAnimal: the body with the requester's userId, validated, then the pet rule.
      Validation errors give 400 with the failing paths; the pet rule's plain Error gives 500. */
  method CreateAnimal(db: Db, user: Id, input: AnimalInput, now: int) returns (resp: Response<Doc>)
    requires db.Valid()
    modifies db`animals, db`nextId
    ensures db.Valid()
    ensures var a := NewAnimal(user, input, now);
      if !SchemaValid(a) then
        resp == Failure(400, SchemaErrors(a)) && db.animals == old(db.animals) && db.nextId == old(db.nextId)
      else if a.category == "pet" && a.name == "" then
        resp == Failure(500, [ServerError]) && db.animals == old(db.animals) && db.nextId == old(db.nextId)
      else
        && resp.Success? && resp.status == 201 && resp.data == Doc(old(db.nextId), PetQuantity(a))
        && db.animals == old(db.animals)[old(db.nextId) := PetQuantity(a)]
        && db.nextId == old(db.nextId) + 1
    ensures resp.Success? ==> resp.data.animal.userId == user && Stored(resp.data.animal)
  {
    var doc := new AnimalDoc(NewAnimal(user, input, now));
    var r := doc.Save();
    match r
    case Invalid(errs) =>
      resp := Failure(400, errs);
    case Rejected(_) =>
      resp := Failure(500, [ServerError]);
    case Saved =>
      var a := doc.Record();
      var id := db.InsertAnimal(a);
      resp := Success(201, Doc(id, a));
  }

  /** What one use of the stored item `it` leaves of it: nothing at zero or below, else one unit less. */
  function AfterUse(it: ItemRecord): (r: Option<ItemRecord>)
    ensures r.None? <==> it.quantity <= 1
    ensures r.Some? ==> r.value == it.(quantity := it.quantity - 1) && r.value.quantity >= 1
  {
    if it.quantity - 1 <= 0 then None else Some(it.(quantity := it.quantity - 1))
  }

  /** The inventory after one use of record `itemId`: deleted, or written back one unit lower. */
  function UsedUp(items: map<Id, ItemRecord>, itemId: Id): (r: map<Id, ItemRecord>)
    requires itemId in items
    ensures AfterUse(items[itemId]).None? ==> r == items - {itemId}
    ensures AfterUse(items[itemId]).Some? ==> r == items[itemId := AfterUse(items[itemId]).value]
  {
    match AfterUse(items[itemId])
    case None => items - {itemId}
    case Some(left) => items[itemId := left]
  }

  /** Writes back what a completed useOn left: the animal, then the item deleted or saved. */
  method ApplyUse(db: Db, animalId: Id, itemId: Id, animal: AnimalRecord, left: Option<ItemRecord>)
    requires db.Valid() && animalId in db.animals && itemId in db.items && Stored(animal)
    requires left.Some? ==>
      ItemSchemaValid(left.value) && left.value.userId == db.items[itemId].userId && left.value.kind == db.items[itemId].kind
    modifies db`animals, db`items
    ensures db.Valid()
    ensures db.animals == old(db.animals)[animalId := animal]
    ensures db.items == if left.None? then old(db.items) - {itemId} else old(db.items)[itemId := left.value]
  {
    db.UpdateAnimal(animalId, animal);
    if left.None? {
      db.DeleteItem(itemId);
    } else {
      db.UpdateItem(itemId, left.value);
    }
  }

  /** inventoryItem.useOn(animal) on documents loaded from a stored animal and a stored item: the
      animal takes the item's effect and saves, and the item loses one unit, deleted when none is
      left. */
  method UseDocuments(a: AnimalRecord, it: ItemRecord, now: int) returns (animal: AnimalRecord, left: Option<ItemRecord>)
    requires Stored(a) && ItemSchemaValid(it)
    ensures animal == UseEffect(it.kind, a, now) && Stored(animal)
    ensures left == AfterUse(it)
    ensures left.Some? ==> ItemSchemaValid(left.value) && left.value.userId == it.userId && left.value.kind == it.kind
  {
    UseEffectKeepsStored(it.kind, a, now);
    var animalDoc := new AnimalDoc(a);
    var itemDoc := new InventoryDoc(it);
    var animalResult, out := itemDoc.UseOn(animalDoc, now);
    assert it.quantity - 1 > 0 ==> ItemSchemaErrors(it.(quantity := it.quantity - 1)) == [];
    animal := animalDoc.Record();
    left := if out.ItemDeleted? then None else Some(itemDoc.Record());
  }

  /** Spends one unit of the stored item `itemId` on the stored animal `id` and writes both back. */
  method UseItem(db: Db, id: Id, itemId: Id, now: int) returns (resp: Response<CareResult>)
    requires db.Valid() && id in db.animals && itemId in db.items
    modifies db`animals, db`items
    ensures db.Valid()
    ensures var a := UseEffect(old(db.items[itemId].kind), old(db.animals[id]), now);
      && db.animals == old(db.animals)[id := a]
      && db.items == UsedUp(old(db.items), itemId)
      && resp.Success? && resp.status == 200 && resp.data == CareResult(a, AfterUse(old(db.items[itemId])))
  {
    var animal, left := UseDocuments(db.animals[id], db.items[itemId], now);
    ApplyUse(db, id, itemId, animal, left);
    resp := Success(200, CareResult(animal, left));
  }

  /** feedAnimal: the user's animal and the user's item (404 for either missing), then useOn.
      No ledger record is written. */
  method FeedAnimal(db: Db, user: Id, id: Id, inventoryId: Id, now: int) returns (resp: Response<CareResult>)
    requires db.Valid()
    modifies db`animals, db`items
    ensures db.Valid()
    ensures old(db.AnimalOf(user, id)).None? ==>
      resp == Failure(404, [AnimalNotFound]) && db.animals == old(db.animals) && db.items == old(db.items)
    ensures old(db.AnimalOf(user, id)).Some? && old(db.ItemOf(user, inventoryId)).None? ==>
      resp == Failure(404, [ItemNotFound]) && db.animals == old(db.animals) && db.items == old(db.items)
    ensures old(db.AnimalOf(user, id)).Some? && old(db.ItemOf(user, inventoryId)).Some? ==>
      var a := UseEffect(old(db.items[inventoryId].kind), old(db.animals[id]), now);
      && db.animals == old(db.animals)[id := a]
      && db.items == UsedUp(old(db.items), inventoryId)
      && resp.Success? && resp.status == 200 && resp.data == CareResult(a, AfterUse(old(db.items[inventoryId])))
  {
    if db.AnimalOf(user, id).None? {
      return Failure(404, [AnimalNotFound]);
    }
    if db.ItemOf(user, inventoryId).None? {
      return Failure(404, [ItemNotFound]);
    }
    resp := UseItem(db, id, inventoryId, now);
  }

  /** waterAnimal: the user's animal (404), the user's water record holding at least one unit
      (400 otherwise), then useOn with that record. */
  method WaterAnimal(db: Db, user: Id, id: Id, now: int) returns (resp: Response<CareResult>)
    requires db.Valid()
    modifies db`animals, db`items
    ensures db.Valid()
    ensures old(db.AnimalOf(user, id)).None? ==>
      resp == Failure(404, [AnimalNotFound]) && db.animals == old(db.animals) && db.items == old(db.items)
    ensures old(db.AnimalOf(user, id)).Some? ==>
      var water := old(db.ItemOfType(user, "water"));
      if water.None? || old(db.items[water.value].quantity) < 1 then
        resp == Failure(400, [NotEnoughWater]) && db.animals == old(db.animals) && db.items == old(db.items)
      else
        var a := UseEffect("water", old(db.animals[id]), now);
        && db.animals == old(db.animals)[id := a]
        && db.items == UsedUp(old(db.items), water.value)
        && resp.Success? && resp.status == 200 && resp.data == CareResult(a, AfterUse(old(db.items[water.value])))
  {
    if db.AnimalOf(user, id).None? {
      return Failure(404, [AnimalNotFound]);
    }
    var water := db.ItemOfType(user, "water");
    if water.None? || db.items[water.value].quantity < 1 {
      return Failure(400, [NotEnoughWater]);
    }
    resp := UseItem(db, id, water.value, now);
  }

  /** The vet cost per animal type, 100 for any other type. */
  function VetCost(kind: string): (c: int)
    ensures c > 0
    ensures kind !in AnimalTypes ==> c == 100
  {
    if kind == "dog" then 100
    else if kind == "cat" then 80
    else if kind == "cow" then 150
    else if kind == "pig" then 120
    else if kind == "chicken" then 30
    else if kind == "horse" then 200
    else if kind == "sheep" then 100
    else if kind == "goat" then 90
    else 100
  }

  /** `animal.name || animal.type`: what the ledger calls the animal. */
  function Label(a: AnimalRecord): (s: string)
    ensures a.name != "" ==> s == a.name
    ensures a.name == "" ==> s == a.kind
    ensures a.kind in AnimalTypes ==> s != ""
  {
    if a.name != "" then a.name else a.kind
  }

  /** The "vet" record of a visit to `a` (at `id`) costing `cost`. */
  function VetRecord(user: Id, id: Id, a: AnimalRecord, cost: int, now: int): (t: Transaction)
    ensures t.userId == user && t.kind == "vet" && t.itemId == id && t.createdAt == now
    ensures t.amount == cost && t.quantity == 1
    ensures TxValid(t) <==> Label(a) != ""
  {
    Transaction(user, "vet", "animal", id, Label(a), cost, 1, Trim("Veterinary care for " + Label(a)), now)
  }

  /** callVet: 404 for an animal the user does not own, 400 when the balance is below the
      type's cost; otherwise the cost is debited, health is restored to 100 and one "vet"
      record for the cost is appended. */
  method CallVet(db: Db, user: Id, id: Id, now: int) returns (resp: Response<VetResult>)
    requires db.Valid()
    modifies db`currency, db`animals, db`ledger
    ensures db.Valid()
    ensures old(db.AnimalOf(user, id)).None? ==>
      resp == Failure(404, [AnimalNotFound]) && db.currency == old(db.currency)
      && db.animals == old(db.animals) && db.ledger == old(db.ledger)
    ensures old(db.AnimalOf(user, id)).Some? && user !in old(db.currency) ==>
      resp == Failure(500, [NoUser]) && db.currency == old(db.currency)
      && db.animals == old(db.animals) && db.ledger == old(db.ledger)
    ensures old(db.AnimalOf(user, id)).Some? && user in old(db.currency) ==>
      var a := old(db.animals[id]);
      var cost := VetCost(a.kind);
      if old(db.currency[user]) < cost then
        && resp == Failure(400, ["Not enough currency. Vet costs " + IntToString(cost) + " coins."])
        && db.currency == old(db.currency) && db.animals == old(db.animals) && db.ledger == old(db.ledger)
      else
        && user in db.currency && db.currency[user] == old(db.currency[user]) - cost
        && db.currency == old(db.currency)[user := db.currency[user]]
        && db.animals == old(db.animals)[id := a.(health := 100, lastCaredAt := now)]
        && db.ledger == old(db.ledger) + [VetRecord(user, id, a, cost, now)]
        && resp.Success? && resp.status == 200
        && resp.data == VetResult(a.(health := 100, lastCaredAt := now), old(db.currency[user]) - cost)
  {
    if db.AnimalOf(user, id).None? {
      return Failure(404, [AnimalNotFound]);
    }
    if user !in db.currency {
      return Failure(500, [NoUser]);
    }
    var a := db.animals[id];
    var cost := VetCost(a.kind);
    if db.currency[user] < cost {
      return Failure(400, ["Not enough currency. Vet costs " + IntToString(cost) + " coins."]);
    }
    resp := ChargeVet(db, user, id, cost, db.currency[user] - cost, now);
  }

  /** The part of callVet after its guards: debit down to `balance`, restore health, append the record. */
  method ChargeVet(db: Db, user: Id, id: Id, cost: int, balance: int, now: int) returns (resp: Response<VetResult>)
    requires db.Valid() && id in db.animals && balance >= 0
    requires cost == VetCost(db.animals[id].kind)
    modifies db`currency, db`animals, db`ledger
    ensures db.Valid()
    ensures var a := old(db.animals[id]);
      && db.currency == old(db.currency)[user := balance]
      && db.animals == old(db.animals)[id := a.(health := 100, lastCaredAt := now)]
      && db.ledger == old(db.ledger) + [VetRecord(user, id, a, cost, now)]
      && resp.Success? && resp.status == 200 && resp.data == VetResult(a.(health := 100, lastCaredAt := now), balance)
  {
    var a := db.animals[id];
    var ok := db.SetBalance(user, balance);
    var treated := Treat(db, id, now);
    LogVet(db, user, id, a, cost, now);
    resp := Success(200, VetResult(treated, balance));
  }

  /** Transaction.create of the "vet" record, which the schema always accepts. */
  method LogVet(db: Db, user: Id, id: Id, a: AnimalRecord, cost: int, now: int)
    requires db.Valid() && a.kind in AnimalTypes
    modifies db`ledger
    ensures db.Valid()
    ensures db.ledger == old(db.ledger) + [VetRecord(user, id, a, cost, now)]
  {
    var ok := db.Create(TxInput(user, "vet", "animal", id, Label(a), cost, None, "Veterinary care for " + Label(a)), now);
  }

  /** animal.callVet() on the stored animal `id`, which always saves: health 100, cared for now. */
  method Treat(db: Db, id: Id, now: int) returns (treated: AnimalRecord)
    requires db.Valid() && id in db.animals
    modifies db`animals
    ensures db.Valid()
    ensures treated == old(db.animals[id]).(health := 100, lastCaredAt := now)
    ensures db.animals == old(db.animals)[id := treated]
  {
    var a := db.animals[id];
    var doc := new AnimalDoc(a);
    var r := doc.CallVet(now);
    treated := doc.Record();
    db.UpdateAnimal(id, treated);
  }

  /** The "sell" record of the sale of `a` (at `id`) for `price`. */
  function AnimalSaleRecord(user: Id, id: Id, a: AnimalRecord, price: int, now: int): (t: Transaction)
    ensures t.userId == user && t.kind == "sell" && t.itemId == id && t.createdAt == now
    ensures t.amount == price && t.quantity == a.quantity
    ensures TxValid(t) <==> Label(a) != "" && a.quantity >= 1
  {
    Transaction(user, "sell", "animal", id, Label(a), price, a.quantity,
                Trim("Sold " + IntToString(a.quantity) + " " + Label(a)), now)
  }

  /** sellAnimal: 404 for an animal the user does not own; otherwise the market value is
      credited, one "sell" record for that amount and the animal's quantity is appended, and
      the animal is deleted, in that order. */
  method SellAnimal(db: Db, user: Id, id: Id, now: int) returns (resp: Response<SaleResult>)
    requires db.Valid()
    modifies db`currency, db`animals, db`ledger
    ensures db.Valid()
    ensures old(db.AnimalOf(user, id)).None? ==>
      resp == Failure(404, [AnimalNotFound]) && db.currency == old(db.currency)
      && db.animals == old(db.animals) && db.ledger == old(db.ledger)
    ensures old(db.AnimalOf(user, id)).Some? && user !in old(db.currency) ==>
      resp == Failure(500, [NoUser]) && db.currency == old(db.currency)
      && db.animals == old(db.animals) && db.ledger == old(db.ledger)
    ensures old(db.AnimalOf(user, id)).Some? && user in old(db.currency) ==>
      var a := old(db.animals[id]);
      var price := MarketValue(a, now);
      && user in db.currency && db.currency[user] == old(db.currency[user]) + price
      && db.currency == old(db.currency)[user := db.currency[user]]
      && db.animals == old(db.animals) - {id}
      && db.ledger == old(db.ledger) + [AnimalSaleRecord(user, id, a, price, now)]
      && resp.Success? && resp.status == 200 && resp.data == SaleResult(price, old(db.currency[user]) + price)
  {
    if db.AnimalOf(user, id).None? {
      return Failure(404, [AnimalNotFound]);
    }
    if user !in db.currency {
      return Failure(500, [NoUser]);
    }
    var a := db.animals[id];
    var price := MarketValue(a, now);
    resp := CreditSale(db, user, id, price, db.currency[user] + price, now);
  }

  /** The part of sellAnimal after its lookups: credit up to `balance`, append the record, delete the animal. */
  method CreditSale(db: Db, user: Id, id: Id, price: int, balance: int, now: int) returns (resp: Response<SaleResult>)
    requires db.Valid() && id in db.animals && balance >= 0
    modifies db`currency, db`animals, db`ledger
    ensures db.Valid()
    ensures var a := old(db.animals[id]);
      && db.currency == old(db.currency)[user := balance]
      && db.animals == old(db.animals) - {id}
      && db.ledger == old(db.ledger) + [AnimalSaleRecord(user, id, a, price, now)]
      && resp.Success? && resp.status == 200 && resp.data == SaleResult(price, balance)
  {
    var a := db.animals[id];
    var ok := db.SetBalance(user, balance);
    LogAnimalSale(db, user, id, a, price, now);
    db.DeleteAnimal(id);
    resp := Success(200, SaleResult(price, balance));
  }

  /** Transaction.create of the "sell" record; a stored animal's quantity is at least 1, so the
      schema accepts it. */
  method LogAnimalSale(db: Db, user: Id, id: Id, a: AnimalRecord, price: int, now: int)
    requires db.Valid() && a.kind in AnimalTypes && a.quantity >= 1
    modifies db`ledger
    ensures db.Valid()
    ensures db.ledger == old(db.ledger) + [AnimalSaleRecord(user, id, a, price, now)]
  {
    var ok := db.Create(TxInput(user, "sell", "animal", id, Label(a), price, Some(a.quantity),
                                "Sold " + IntToString(a.quantity) + " " + Label(a)), now);
  }
}
