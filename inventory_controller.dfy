/** The inventory endpoints: listing (after removing the user's empty
    records), buying at the catalogue price and selling back at 80%. */
module InventoryController {
  import opened Common
  import opened InventoryModel
  import opened TransactionModel
  import opened Database

  const ItemNotFound: string := "Inventory item not found"
  const ServerError: string := "Server error"
  /** The message of the TypeError raised when the user document is missing. */
  const NoUser: string := "Cannot read properties of null (reading 'currency')"

  datatype ItemView = ItemView(id: Id, item: ItemRecord)
  datatype ItemList = ItemList(count: int, data: seq<ItemView>)
  datatype Purchase = Purchase(id: Id, inventory: ItemRecord, currency: int)
  datatype StockSale = StockSale(sellingPrice: int, inventory: Option<ItemRecord>, currency: int)

  /** The listing entries for `ids`, in that order. */
  function ViewsOf(m: map<Id, ItemRecord>, ids: seq<Id>): (r: seq<ItemView>)
    requires forall k :: 0 <= k < |ids| ==> ids[k] in m
    ensures |r| == |ids|
    ensures forall k :: 0 <= k < |r| ==> r[k] == ItemView(ids[k], m[ids[k]])
    ensures forall id :: id in ids ==> exists k :: 0 <= k < |r| && r[k].id == id
  {
    var r := seq(|ids|, k requires 0 <= k < |ids| => ItemView(ids[k], m[ids[k]]));
    assert forall id :: id in ids ==> exists k :: 0 <= k < |r| && r[k].id == id by {
      forall id | id in ids
        ensures exists k :: 0 <= k < |r| && r[k].id == id
      {
        var k :| 0 <= k < |ids| && ids[k] == id;
        assert r[k].id == id;
      }
    }
    r
  }

  /** Inventory.find({ userId }) as listing entries: every record of the user, once each and in
      creation order. */
  function ItemListOf(db: Db, user: Id): (resp: Response<ItemList>)
    reads db
    requires db.Valid()
    ensures resp.Success? && resp.status == 200 && resp.data.count == |resp.data.data|
    ensures forall k :: 0 <= k < |resp.data.data| ==>
      && resp.data.data[k].id in db.items && resp.data.data[k].item == db.items[resp.data.data[k].id]
      && resp.data.data[k].item.userId == user
    ensures forall id :: id in db.items && db.items[id].userId == user ==>
      exists k :: 0 <= k < |resp.data.data| && resp.data.data[k].id == id
    ensures forall k, l :: 0 <= k < l < |resp.data.data| ==> resp.data.data[k].id < resp.data.data[l].id
  {
    var ids := db.ItemsOf(user);
    var views := ViewsOf(db.items, ids);
    Success(200, ItemList(|views|, views))
  }

  /** getInventory: the user's records with quantity <= 0 are deleted, then the rest are listed
      in creation order. */
  method GetInventory(db: Db, user: Id) returns (resp: Response<ItemList>)
    requires db.Valid()
    modifies db`items
    ensures db.Valid()
    ensures db.items == map id | id in old(db.items) && !(old(db.items)[id].userId == user && old(db.items)[id].quantity <= 0) :: old(db.items)[id]
    ensures resp == ItemListOf(db, user)
    ensures forall k :: 0 <= k < |resp.data.data| ==> resp.data.data[k].item.quantity > 0
  {
    db.DeleteEmptyItems(user);
    assert forall id :: id in db.items && db.items[id].userId == user ==> db.items[id].quantity > 0;
    resp := ItemListOf(db, user);
  }

  /** getInventoryItem: the user's record, or 404. */
  function GetInventoryItem(db: Db, user: Id, id: Id): (resp: Response<ItemView>)
    reads db
    ensures db.ItemOf(user, id).None? ==> resp == Failure(404, [ItemNotFound])
    ensures db.ItemOf(user, id).Some? ==> resp == Success(200, ItemView(id, db.items[id]))
  {
    match db.ItemOf(user, id)
    case None => Failure(404, [ItemNotFound])
    case Some(it) => Success(200, ItemView(id, it))
  }

  // ---------------------------------------------------------------------
  // Buying

  /** The request body of a purchase; 0 and "" stand for values the client left out. */
  datatype BuyRequest = BuyRequest(kind: string, name: string, quantity: int, price: int, unit: string)

  datatype CatalogueEntry = CatalogueEntry(name: string, price: int, unit: string)

  /** The server's catalogue, looked up with the type exactly as sent. */
  function Catalogue(kind: string): (r: Option<CatalogueEntry>)
    ensures r.Some? <==> kind in ItemTypes
    ensures r.Some? ==> r.value.price == DefaultPrice(kind) && r.value.unit in Units && r.value.name != ""
  {
    if kind == "dogFood" then Some(CatalogueEntry("Dog Food", 20, "lbs"))
    else if kind == "catFood" then Some(CatalogueEntry("Cat Food", 15, "lbs"))
    else if kind == "livestockFeed" then Some(CatalogueEntry("Livestock Feed", 10, "lbs"))
    else if kind == "water" then Some(CatalogueEntry("Water", 5, "gallons"))
    else if kind == "medicine" then Some(CatalogueEntry("General Medicine", 50, "units"))
    else if kind == "treats" then Some(CatalogueEntry("Treats", 10, "units"))
    else if kind == "feed" then Some(CatalogueEntry("Animal Feed", 20, "lbs"))
    else if kind == "premium_feed" then Some(CatalogueEntry("Premium Feed", 50, "lbs"))
    else if kind == "vitamins" then Some(CatalogueEntry("Animal Vitamins", 40, "units"))
    else if kind == "basic_medicine" then Some(CatalogueEntry("Basic Medicine", 30, "units"))
    else if kind == "advanced_medicine" then Some(CatalogueEntry("Advanced Medicine", 80, "units"))
    else None
  }

  /** `quantity || 1`. */
  function OrOne(q: int): (r: int)
    ensures r != 0
    ensures q != 0 ==> r == q
  {
    if q != 0 then q else 1
  }

  function OrString(s: string, fallback: string): string {
    if s != "" then s else fallback
  }

  function OrInt(n: int, fallback: int): int {
    if n != 0 then n else fallback
  }

  /** The catalogue entry, or one made from the request for a type the catalogue lacks. */
  function ItemInfo(req: BuyRequest): CatalogueEntry {
    Catalogue(req.kind).GetOr(CatalogueEntry(OrString(req.name, req.kind), OrInt(req.price, 10), OrString(req.unit, "units")))
  }

  /** The charge: the catalogue price per unit for a catalogue type, whatever price the client sent;
      the client's price (or 10) per unit otherwise. */
  function TotalCost(req: BuyRequest): (c: int)
    ensures req.kind in ItemTypes ==> c == DefaultPrice(req.kind) * OrOne(req.quantity)
    ensures req.kind !in ItemTypes ==> c == OrInt(req.price, 10) * OrOne(req.quantity)
  {
    ItemInfo(req).price * OrOne(req.quantity)
  }

  /** For a catalogue type the price in the request does not change the charge. */
  lemma CatalogueCostIgnoresClientPrice(req: BuyRequest, price: int)
    requires req.kind in ItemTypes
    ensures TotalCost(req.(price := price)) == TotalCost(req)
  {
  }

  /** A catalogue type sent in another casing misses the catalogue, so the client's price is
      charged, but the record is still stored under the catalogue type. */
  lemma MiscasedTypeChargesClientPrice(req: BuyRequest, i: int)
    requires 0 <= i < |ItemTypes| && req.kind != ItemTypes[i] && ToLower(req.kind) == ToLower(ItemTypes[i])
    requires req.price > 0 && req.quantity > 0
    ensures TotalCost(req) == req.price * req.quantity
    ensures CanonicalType(req.kind) == ItemTypes[i]
  {
    CanonicalTypeIgnoresCase(req.kind, i);
    if req.kind in ItemTypes {
      var j :| 0 <= j < |ItemTypes| && ItemTypes[j] == req.kind;
      ItemTypesDistinctIgnoringCase(i, j);
    }
  }

  /** For a catalogue type, a price sent by the client is stored on a new record although the
      charge ignores it. */
  lemma ClientPriceStoredNotCharged(user: Id, req: BuyRequest, price: int)
    requires req.kind in ItemTypes && price != 0
    ensures TotalCost(req.(price := price)) == TotalCost(req.(price := 0))
    ensures NewStock(user, req.(price := price)).price == price
    ensures NewStock(user, req.(price := 0)).price == DefaultPrice(req.kind)
  {
    CatalogueCostIgnoresClientPrice(req.(price := 0), price);
  }

  /** Concretely: one unit of "DogFood" at a client price of 1 costs 1 instead of 20. */
  lemma MiscasedDogFood()
    ensures TotalCost(BuyRequest("DogFood", "", 1, 1, "")) == 1
    ensures TotalCost(BuyRequest("dogFood", "", 1, 1, "")) == 20
  {
  }

  /** The record a purchase creates when the user holds none of the type. */
  function NewStock(user: Id, req: BuyRequest): (r: ItemRecord)
    ensures r.userId == user && r.kind == CanonicalType(req.kind)
    ensures r.quantity == OrOne(req.quantity)
    ensures r.name == Trim(if req.name != "" then req.name else ItemInfo(req).name)
    ensures r.unit == (if req.unit != "" then req.unit else ItemInfo(req).unit)
    ensures req.price != 0 ==> r.price == req.price
    ensures req.price == 0 && req.kind in ItemTypes ==> r.price == DefaultPrice(req.kind)
    ensures req.price == 0 && req.kind !in ItemTypes ==> r.price == 10
  {
    var info := ItemInfo(req);
    NewItem(user, req.kind, OrString(req.name, info.name), OrOne(req.quantity),
            OrString(req.unit, info.unit), OrInt(req.price, info.price))
  }

  /** The description of a "buy" or "sell" record, before the trim setter. */
  function Description(verb: string, quantity: int, unit: string, name: string): string {
    verb + " " + IntToString(quantity) + " " + unit + " of " + name
  }

  /** The record after `inventoryItem.quantity += q`. */
  function Grown(it: ItemRecord, q: int): (r: ItemRecord)
    ensures r.quantity == it.quantity + q
    ensures r.(quantity := it.quantity) == it
  {
    it.(quantity := it.quantity + q)
  }

  /** inventoryItem.quantity += quantity || 1; inventoryItem.save(). */
  method GrowStock(db: Db, itemId: Id, q: int) returns (ok: bool)
    requires db.Valid() && itemId in db.items
    modifies db`items
    ensures db.Valid()
    ensures ok == ItemSchemaValid(Grown(old(db.items[itemId]), q))
    ensures db.items == (if ok then old(db.items)[itemId := Grown(old(db.items[itemId]), q)] else old(db.items))
  {
    var grown := Grown(db.items[itemId], q);
    ok := ItemSchemaErrors(grown) == [];
    if ok {
      db.UpdateItem(itemId, grown);
    }
  }

  /** Inventory.create for a type the user does not hold: saved under the next id when it validates. */
  method AddStock(db: Db, user: Id, req: BuyRequest) returns (ok: bool, itemId: Id)
    requires db.Valid() && db.ItemOfType(user, CanonicalType(req.kind)).None?
    modifies db`items, db`nextId
    ensures db.Valid()
    ensures ok == ItemSchemaValid(NewStock(user, req)) && itemId == old(db.nextId)
    ensures db.items == (if ok then old(db.items)[itemId := NewStock(user, req)] else old(db.items))
    ensures db.nextId == (if ok then old(db.nextId) + 1 else old(db.nextId))
  {
    var newRecord := NewStock(user, req);
    ok := ItemSchemaErrors(newRecord) == [];
    itemId := db.nextId;
    if ok {
      FirstOfTypeSpec(db.items, user, newRecord.kind, db.nextId);
      itemId := db.InsertItem(newRecord);
    }
  }

  /** The outcome of buyInventory's stock write: whether it validated, the id of the record
      written, and the inventory and next id afterwards. */
  datatype StockWrite = StockWrite(ok: bool, itemId: Id, items: map<Id, ItemRecord>, nextId: nat)

  /** `inventoryItem.save()` of record `id` grown by `q`: written when it validates. */
  function GrowWrite(items: map<Id, ItemRecord>, nextId: nat, id: Id, q: int): (w: StockWrite)
    requires id in items
    ensures w.itemId == id && w.nextId == nextId && w.ok == ItemSchemaValid(Grown(items[id], q))
    ensures w.items == (if w.ok then items[id := Grown(items[id], q)] else items)
    ensures w.items - {id} == items - {id}
  {
    var grown := Grown(items[id], q);
    if ItemSchemaValid(grown) then StockWrite(true, id, items[id := grown], nextId)
    else StockWrite(false, id, items, nextId)
  }

  /** `Inventory.create` of `created`: stored under `nextId` when it validates. */
  function CreateWrite(items: map<Id, ItemRecord>, nextId: nat, created: ItemRecord): (w: StockWrite)
    ensures w.itemId == nextId && w.ok == ItemSchemaValid(created)
    ensures w.items == (if w.ok then items[nextId := created] else items)
    ensures w.nextId == (if w.ok then nextId + 1 else nextId)
    ensures w.items - {nextId} == items - {nextId}
  {
    if ItemSchemaValid(created) then StockWrite(true, nextId, items[nextId := created], nextId + 1)
    else StockWrite(false, nextId, items, nextId)
  }

  /** The stock write: the user's first record of the set type grows by `quantity || 1`, or,
      lacking one, a new record is stored under `nextId`; a record that fails validation leaves
      everything as it was. */
  function Restocked(items: map<Id, ItemRecord>, nextId: nat, user: Id, req: BuyRequest): (w: StockWrite)
    ensures w.items - {w.itemId} == items - {w.itemId}
    ensures !w.ok ==> w.items == items && w.nextId == nextId
    ensures w.ok ==> w.itemId in w.items && w.items[w.itemId].userId == user && w.items[w.itemId].kind == CanonicalType(req.kind)
  {
    match FirstOfType(items, user, CanonicalType(req.kind), nextId)
    case Some(id) => GrowWrite(items, nextId, id, OrOne(req.quantity))
    case None => CreateWrite(items, nextId, NewStock(user, req))
  }

  /** A successful stock write adds `quantity || 1` to what the user held of the type: to the
      record they hold, or to nothing in a record under a fresh id. */
  lemma RestockedHolding(items: map<Id, ItemRecord>, nextId: nat, user: Id, req: BuyRequest)
    requires forall id :: id in items ==> id < nextId
    ensures Restocked(items, nextId, user, req).itemId in items <==>
      exists id :: id in items && items[id].userId == user && items[id].kind == CanonicalType(req.kind)
    ensures var w := Restocked(items, nextId, user, req);
      w.ok ==> w.items[w.itemId].quantity == (if w.itemId in items then items[w.itemId].quantity else 0) + OrOne(req.quantity)
    ensures var w := Restocked(items, nextId, user, req);
      w.ok ==> w.items.Keys == items.Keys + {w.itemId}
  {
    var kind := CanonicalType(req.kind);
    FirstOfTypeSpec(items, user, kind, nextId);
    match FirstOfType(items, user, kind, nextId)
    case Some(id) =>
      assert Restocked(items, nextId, user, req) == GrowWrite(items, nextId, id, OrOne(req.quantity));
      GrowHolding(items, nextId, id, OrOne(req.quantity));
    case None =>
      assert Restocked(items, nextId, user, req) == CreateWrite(items, nextId, NewStock(user, req));
      CreateHolding(items, nextId, NewStock(user, req));
  }

  /** Growing the record `id` keeps the key set and adds `q` to its quantity. */
  lemma GrowHolding(items: map<Id, ItemRecord>, nextId: nat, id: Id, q: int)
    requires id in items
    ensures var w := GrowWrite(items, nextId, id, q);
      && w.itemId in items
      && (w.ok ==> w.items[w.itemId].quantity == items[id].quantity + q && w.items.Keys == items.Keys + {w.itemId})
  {
  }

  /** Creating a record under an unused `nextId` adds that one key, holding the new record. */
  lemma CreateHolding(items: map<Id, ItemRecord>, nextId: nat, created: ItemRecord)
    ensures var w := CreateWrite(items, nextId, created);
      && (w.itemId in items <==> nextId in items)
      && (w.ok ==> w.items[w.itemId] == created && w.items.Keys == items.Keys + {w.itemId})
  {
  }

  /** A catalogue purchase with a negative quantity, against a record holding at least that many
      units, passes the funds check (its cost is negative), lowers the stock by that many units,
      and so credits the balance; only the ledger write afterwards fails. */
  lemma NegativePurchaseSellsAtFullPrice(items: map<Id, ItemRecord>, nextId: nat, user: Id, req: BuyRequest, balance: int)
    requires req.quantity < 0 && req.kind in ItemTypes && balance >= 0
    requires FirstOfType(items, user, CanonicalType(req.kind), nextId).Some?
    requires var id := FirstOfType(items, user, CanonicalType(req.kind), nextId).value;
      ItemSchemaValid(items[id]) && items[id].quantity + req.quantity >= 0
    ensures TotalCost(req) < 0 && balance >= TotalCost(req)
    ensures TotalCost(req) == -(DefaultPrice(req.kind) * -req.quantity)
    ensures var w := Restocked(items, nextId, user, req);
      w.ok && w.items[w.itemId].quantity == items[w.itemId].quantity - -req.quantity
    ensures OrOne(req.quantity) < 1
  {
    NegativeCost(req);
    var id := FirstOfType(items, user, CanonicalType(req.kind), nextId).value;
    assert Restocked(items, nextId, user, req) == GrowWrite(items, nextId, id, req.quantity);
  }

  lemma NegativeCost(req: BuyRequest)
    requires req.quantity < 0 && req.kind in ItemTypes
    ensures TotalCost(req) < 0
    ensures TotalCost(req) == -(DefaultPrice(req.kind) * -req.quantity)
  {
    var p, q := DefaultPrice(req.kind), req.quantity;
    assert TotalCost(req) == p * q;
    NegativeCharge(p, q);
  }

  lemma NegativeCharge(p: int, q: int)
    requires p > 0 && q < 0
    ensures p * q < 0 && p * q == -(p * -q)
  {
  }

  /** The first stage of buyInventory after its guards: grow the user's record of the type, found
      by the lookup `existing`, or create one. */
  method Restock(db: Db, user: Id, req: BuyRequest, existing: Option<Id>) returns (ok: bool, itemId: Id)
    requires db.Valid() && existing == db.ItemOfType(user, CanonicalType(req.kind))
    modifies db`items, db`nextId
    ensures db.Valid()
    ensures ok ==> itemId in db.items && db.items[itemId].userId == user && db.items[itemId].kind == CanonicalType(req.kind)
    ensures if existing.Some? then
        && ok == ItemSchemaValid(Grown(old(db.items[existing.value]), OrOne(req.quantity)))
        && db.nextId == old(db.nextId) && itemId == existing.value
        && db.items == (if ok then old(db.items)[existing.value := Grown(old(db.items[existing.value]), OrOne(req.quantity))] else old(db.items))
      else
        && ok == ItemSchemaValid(NewStock(user, req)) && itemId == old(db.nextId)
        && db.items == (if ok then old(db.items)[itemId := NewStock(user, req)] else old(db.items))
        && db.nextId == (if ok then old(db.nextId) + 1 else old(db.nextId))
    ensures StockWrite(ok, itemId, db.items, db.nextId) == Restocked(old(db.items), old(db.nextId), user, req)
  {
    if existing.Some? {
      itemId := existing.value;
      ok := GrowStock(db, itemId, OrOne(req.quantity));
    } else {
      ok, itemId := AddStock(db, user, req);
    }
  }

  /** buyInventory: 500 without a user document, 400 when the balance is below the charge; then the
      stock is grown or created (500 if it fails validation), the charge debited, and one "buy"
      record appended (500 instead, after the writes, for a negative quantity). */
  method BuyInventory(db: Db, user: Id, req: BuyRequest, now: int) returns (resp: Response<Purchase>)
    requires db.Valid()
    modifies db`currency, db`items, db`ledger, db`nextId
    ensures db.Valid()
    ensures user !in old(db.currency) ==>
      && resp == Failure(500, [NoUser]) && db.currency == old(db.currency) && db.items == old(db.items)
      && db.ledger == old(db.ledger) && db.nextId == old(db.nextId)
    ensures user in old(db.currency) && old(db.currency[user]) < TotalCost(req) ==>
      && resp == Failure(400, ["Not enough currency. Total cost: " + IntToString(TotalCost(req)) + " coins."])
      && db.currency == old(db.currency) && db.items == old(db.items)
      && db.ledger == old(db.ledger) && db.nextId == old(db.nextId)
    ensures user in old(db.currency) && TotalCost(req) <= old(db.currency[user]) ==>
      BoughtStock(old(db.currency), old(db.items), old(db.nextId), old(db.ledger),
                  db.currency, db.items, db.nextId, db.ledger, user, req, TotalCost(req), now, resp)
  {
    var cost := TotalCost(req);
    if user !in db.currency {
      return Failure(500, [NoUser]);
    }
    if db.currency[user] < cost {
      return Failure(400, ["Not enough currency. Total cost: " + IntToString(cost) + " coins."]);
    }
    var stocked;
    resp, stocked := BuyStock(db, user, req, cost, now);
  }

  /** What buyInventory promises once its guards pass: the stock write is the one `Restocked`
      describes; when it validates the cost is debited (credited, for a negative cost), and the
      answer succeeds, with the stored record, the new balance and one "buy" record appended,
      exactly when `quantity || 1` is at least 1; when it fails validation the balance and the
      ledger are untouched. */
  predicate BoughtStock(balances: map<Id, int>, items: map<Id, ItemRecord>, nextId: nat, ledger: seq<Transaction>,
                        balances': map<Id, int>, items': map<Id, ItemRecord>, nextId': nat, ledger': seq<Transaction>,
                        user: Id, req: BuyRequest, cost: int, now: int, resp: Response<Purchase>)
    requires user in balances
  {
    var w := Restocked(items, nextId, user, req);
    && items' == w.items && nextId' == w.nextId
    && (w.ok ==> balances' == balances[user := balances[user] - cost])
    && (!w.ok ==> resp == Failure(500, [ServerError]) && balances' == balances && ledger' == ledger)
    && (resp.Success? <==> w.ok && OrOne(req.quantity) >= 1)
    && (resp.Success? ==>
      && resp.status == 200 && resp.data.id == w.itemId && resp.data.inventory == items'[w.itemId]
      && resp.data.currency == balances[user] - cost
      && ledger' == ledger + [BuyRecord(user, w.itemId, items'[w.itemId], OrOne(req.quantity), cost, now)])
    && (resp.Failure? ==> ledger' == ledger)
  }

  /** buyInventory after its guards, for a charge of `cost` the user can afford: `stocked` says
      whether the stock write validated, which is exactly when the charge is debited. */
  method BuyStock(db: Db, user: Id, req: BuyRequest, cost: int, now: int) returns (resp: Response<Purchase>, stocked: bool)
    requires db.Valid() && user in db.currency && cost <= db.currency[user]
    modifies db`currency, db`items, db`ledger, db`nextId
    ensures db.Valid()
    ensures !stocked ==> resp == Failure(500, [ServerError]) && db.currency == old(db.currency) && db.ledger == old(db.ledger)
    ensures stocked ==>
      && user in db.currency && db.currency[user] == old(db.currency[user]) - cost
      && db.currency == old(db.currency)[user := db.currency[user]]
    ensures stocked ==> (resp.Success? <==> OrOne(req.quantity) >= 1)
    ensures var w := Restocked(old(db.items), old(db.nextId), user, req);
      && stocked == w.ok && db.items == w.items && db.nextId == w.nextId
      && (resp.Success? ==> resp.data.id == w.itemId)
    ensures resp.Failure? ==> db.ledger == old(db.ledger)
    ensures resp.Success? ==>
      && stocked && resp.status == 200 && resp.data.id in db.items && resp.data.inventory == db.items[resp.data.id]
      && resp.data.currency == old(db.currency[user]) - cost
      && db.ledger == old(db.ledger) + [BuyRecord(user, resp.data.id, resp.data.inventory, OrOne(req.quantity), cost, now)]
  {
    var balance := db.currency[user] - cost;
    var itemId;
    stocked, itemId := Restock(db, user, req, db.ItemOfType(user, CanonicalType(req.kind)));
    if !stocked {
      return Failure(500, [ServerError]), false;
    }
    resp := Charge(db, user, itemId, cost, balance, OrOne(req.quantity), now);
  }

  /** The last stages of buyInventory: debit `cost`, then append the "buy" record for `q` units. */
  method Charge(db: Db, user: Id, itemId: Id, cost: int, balance: int, q: int, now: int) returns (resp: Response<Purchase>)
    requires db.Valid() && itemId in db.items && balance >= 0
    modifies db`currency, db`ledger
    ensures db.Valid()
    ensures db.currency == old(db.currency)[user := balance]
    ensures q < 1 ==> resp == Failure(500, [ServerError]) && db.ledger == old(db.ledger)
    ensures q >= 1 ==>
      var it := old(db.items[itemId]);
      && db.ledger == old(db.ledger) + [BuyRecord(user, itemId, it, q, cost, now)]
      && resp.Success? && resp.status == 200 && resp.data == Purchase(itemId, it, balance)
  {
    var it := db.items[itemId];
    var ok := db.SetBalance(user, balance);
    var logged := LogTrade(db, user, "buy", "Bought", itemId, it.name, it.unit, cost, q, now);
    if !logged {
      return Failure(500, [ServerError]);
    }
    resp := Success(200, Purchase(itemId, it, balance));
  }

  /** Transaction.create of a "buy" or "sell" record for `q` units, which the schema rejects for a
      quantity below 1. */
  method LogTrade(db: Db, user: Id, kind: string, verb: string, itemId: Id, name: string, unit: string,
                  amount: int, q: int, now: int) returns (ok: bool)
    requires db.Valid() && name != "" && kind in TxTypes
    modifies db`ledger
    ensures db.Valid()
    ensures ok <==> q >= 1
    ensures db.ledger == if ok then old(db.ledger) + [Transaction(user, kind, "inventory", itemId, name, amount, q,
                                    Trim(Description(verb, q, unit, name)), now)]
                         else old(db.ledger)
  {
    ok := db.Create(TxInput(user, kind, "inventory", itemId, name, amount, Some(q), Description(verb, q, unit, name)), now);
  }

  // ---------------------------------------------------------------------
  // Selling

  /** Math.round(price * quantity * 0.8). */
  function SellPrice(price: int, quantity: int): (p: int)
    ensures price >= 0 && quantity >= 0 ==> 0 <= p
    ensures price >= 0 && quantity >= 0 ==> p <= price * quantity
  {
    Round((price * quantity) as real * 0.8)
  }

  /** sellInventory: 404 for an item the user does not own, 400 when asking for more than is held;
      otherwise round(price * quantity * 0.8) is credited, the stock lowered (the record deleted at
      exactly 0) and one "sell" record appended. A quantity below 1 gets past both guards and ends
      in 500 after the writes. */
  method SellInventory(db: Db, user: Id, id: Id, quantity: int, now: int) returns (resp: Response<StockSale>)
    requires db.Valid()
    modifies db`currency, db`items, db`ledger, db`nextId
    ensures db.Valid()
    ensures db.nextId == old(db.nextId)
    ensures old(db.ItemOf(user, id)).None? ==>
      && resp == Failure(404, [ItemNotFound]) && db.currency == old(db.currency)
      && db.items == old(db.items) && db.ledger == old(db.ledger)
    ensures old(db.ItemOf(user, id)).Some? && old(db.items[id].quantity) < quantity ==>
      && resp == Failure(400, ["Not enough inventory. You have " + IntToString(old(db.items[id].quantity)) + " " + old(db.items[id].unit) + "."])
      && db.currency == old(db.currency) && db.items == old(db.items) && db.ledger == old(db.ledger)
    ensures old(db.ItemOf(user, id)).Some? && quantity <= old(db.items[id].quantity) ==>
      var it := old(db.items[id]);
      var price := SellPrice(it.price, quantity);
      if user !in old(db.currency) || old(db.currency[user]) + price < 0 then
        && resp.Failure? && resp.status == 500
        && db.currency == old(db.currency) && db.items == old(db.items) && db.ledger == old(db.ledger)
      else
        && user in db.currency && db.currency[user] == old(db.currency[user]) + price
        && db.currency == old(db.currency)[user := db.currency[user]]
        && db.items == Lowered(old(db.items), id, quantity)
        && db.ledger == (if quantity >= 1 then old(db.ledger) + [SaleRecord(user, id, it, quantity, price, now)] else old(db.ledger))
        && (quantity >= 1 ==>
              resp.Success? && resp.status == 200 && resp.data == StockSale(price, Remaining(it, quantity), old(db.currency[user]) + price))
        && (quantity < 1 ==> resp == Failure(500, [ServerError]))
  {
    if db.ItemOf(user, id).None? {
      return Failure(404, [ItemNotFound]);
    }
    var it := db.items[id];
    if it.quantity < quantity {
      return Failure(400, ["Not enough inventory. You have " + IntToString(it.quantity) + " " + it.unit + "."]);
    }
    var price := SellPrice(it.price, quantity);
    if user !in db.currency {
      return Failure(500, [NoUser]);
    }
    var balance := db.currency[user] + price;
    var ok := db.SetBalance(user, balance);
    if !ok {
      return Failure(500, [ServerError]);
    }
    resp := Destock(db, user, id, quantity, price, balance, now);
  }

  /** The inventory after selling `quantity` of record `id`: the record is deleted when exactly
      nothing is left, and lowered otherwise. */
  function Lowered(items: map<Id, ItemRecord>, id: Id, quantity: int): (r: map<Id, ItemRecord>)
    requires id in items
    ensures r.Keys <= items.Keys
    ensures id in r <==> items[id].quantity != quantity
    ensures id in r ==> r[id] == items[id].(quantity := items[id].quantity - quantity)
    ensures r - {id} == items - {id}
  {
    if items[id].quantity - quantity == 0 then items - {id}
    else items[id := items[id].(quantity := items[id].quantity - quantity)]
  }

  /** `inventoryItem.quantity > 0 ? inventoryItem : null` after the sale. */
  function Remaining(it: ItemRecord, quantity: int): Option<ItemRecord> {
    if it.quantity - quantity > 0 then Some(it.(quantity := it.quantity - quantity)) else None
  }

  /** The "buy" record of `q` units of `it` for `cost`. */
  function BuyRecord(user: Id, id: Id, it: ItemRecord, q: int, cost: int, now: int): (t: Transaction)
    ensures t.userId == user && t.kind == "buy" && t.itemId == id && t.createdAt == now
    ensures t.amount == cost && t.quantity == q
    ensures TxValid(t) <==> it.name != "" && q >= 1
  {
    Transaction(user, "buy", "inventory", id, it.name, cost, q, Trim(Description("Bought", q, it.unit, it.name)), now)
  }

  /** The "sell" record of a sale of `quantity` units of `it` for `price`. */
  function SaleRecord(user: Id, id: Id, it: ItemRecord, quantity: int, price: int, now: int): (t: Transaction)
    ensures t.userId == user && t.kind == "sell" && t.itemId == id && t.createdAt == now
    ensures t.amount == price && t.quantity == quantity
    ensures TxValid(t) <==> it.name != "" && quantity >= 1
  {
    Transaction(user, "sell", "inventory", id, it.name, price, quantity, Trim(Description("Sold", quantity, it.unit, it.name)), now)
  }

  /** inventoryItem.quantity -= quantity, then deleteOne at exactly 0 or save otherwise. */
  method LowerStock(db: Db, id: Id, quantity: int)
    requires db.Valid() && id in db.items && quantity <= db.items[id].quantity
    modifies db`items
    ensures db.Valid()
    ensures db.items == Lowered(old(db.items), id, quantity)
  {
    var it := db.items[id];
    ghost var target := Lowered(db.items, id, quantity);
    if it.quantity - quantity == 0 {
      db.DeleteItem(id);
    } else {
      db.UpdateItem(id, it.(quantity := it.quantity - quantity));
    }
    assert db.items == target;
  }

  /** The part of sellInventory after the credit: lower or delete the stock, then append the record. */
  method Destock(db: Db, user: Id, id: Id, quantity: int, price: int, balance: int, now: int) returns (resp: Response<StockSale>)
    requires db.Valid() && id in db.items && quantity <= db.items[id].quantity
    modifies db`items, db`ledger
    ensures db.Valid()
    ensures db.items == Lowered(old(db.items), id, quantity)
    ensures db.ledger == (if quantity >= 1 then old(db.ledger) + [SaleRecord(user, id, old(db.items[id]), quantity, price, now)] else old(db.ledger))
    ensures quantity >= 1 ==>
      resp.Success? && resp.status == 200 && resp.data == StockSale(price, Remaining(old(db.items[id]), quantity), balance)
    ensures quantity < 1 ==> resp == Failure(500, [ServerError])
  {
    var it := db.items[id];
    LowerStock(db, id, quantity);
    var logged := LogTrade(db, user, "sell", "Sold", id, it.name, it.unit, price, quantity, now);
    if !logged {
      return Failure(500, [ServerError]);
    }
    resp := Success(200, StockSale(price, Remaining(it, quantity), balance));
  }
}
