/** The market page's decisions: which purchases ask for a name, the funds
    guard, the request sent, and the balance shown afterwards. */
module Market {
  import opened Common
  import opened AnimalModel
  import opened InventoryModel
  import opened InventoryController

  /** A market listing: `quantity` is absent for animals. */
  datatype MarketItem = MarketItem(kind: string, name: string, price: int, quantity: Option<int>)

  /** The inventory listings, as the page lists them. */
  const InventoryListings: seq<MarketItem> := [
    MarketItem("dogFood", "Dog Food", 20, Some(10)),
    MarketItem("catFood", "Cat Food", 15, Some(10)),
    MarketItem("livestockFeed", "Livestock Feed", 10, Some(10)),
    MarketItem("feed", "Animal Feed", 20, Some(10)),
    MarketItem("premium_feed", "Premium Feed", 50, Some(10)),
    MarketItem("water", "Fresh Water", 5, Some(20)),
    MarketItem("treats", "Animal Treats", 10, Some(5)),
    MarketItem("medicine", "General Medicine", 50, Some(5)),
    MarketItem("basic_medicine", "Basic Medicine", 30, Some(5)),
    MarketItem("advanced_medicine", "Advanced Medicine", 80, Some(5)),
    MarketItem("vitamins", "Animal Vitamins", 40, Some(10))]

  /** cat, dog and horse, in any casing. */
  predicate IsPet(kind: string) {
    ToLower(kind) in ["cat", "dog", "horse"]
  }

  datatype Click = AskName(animal: MarketItem) | Buy(item: MarketItem)

  /** handlePurchaseClick: a pet in the animals tab opens the name prompt; everything else is
      bought at once. */
  function PurchaseClick(category: string, item: MarketItem): (c: Click)
    ensures c.AskName? <==> category == "animals" && IsPet(item.kind)
    ensures c.AskName? ==> c.animal == item
    ensures c.Buy? ==> c.item == item
  {
    if category == "animals" && IsPet(item.kind) then AskName(item) else Buy(item)
  }

  /** handleNameSubmit: goes ahead, with the name as typed, only when it is not blank. */
  function NameSubmit(selected: MarketItem, name: string): (r: Option<MarketItem>)
    ensures r.Some? <==> Trim(name) != ""
    ensures r.Some? ==> r.value == selected.(name := name)
  {
    if Trim(name) != "" then Some(selected.(name := name)) else None
  }

  /** The page's affordability test, shared by the button and the purchase guard. */
  predicate CanAfford(currency: int, item: MarketItem) {
    currency >= item.price
  }

  /** The purchase button is disabled exactly when the guard would refuse. */
  predicate PurchaseDisabled(currency: int, item: MarketItem) {
    !CanAfford(currency, item)
  }

  datatype Request =
    | NotEnoughCoins(message: string)
    | CreateAnimalRequest(input: AnimalInput)
    | BuyInventoryRequest(req: BuyRequest)

  /** "pet" for cat, dog and horse, "livestock" otherwise. */
  function CategoryOf(kind: string): (c: string)
    ensures c in Categories
    ensures c == "pet" <==> IsPet(kind)
  {
    if IsPet(kind) then "pet" else "livestock"
  }

  /** handlePurchase: refused, with no request, when the balance is below the listed price;
      otherwise an animal is created with its category, or the inventory listing is bought
      (quantity || 1, unit "units"). */
  function HandlePurchase(category: string, currency: int, item: MarketItem): (r: Request)
    ensures r.NotEnoughCoins? <==> PurchaseDisabled(currency, item)
    ensures r.CreateAnimalRequest? <==> CanAfford(currency, item) && category == "animals"
    ensures r.CreateAnimalRequest? ==>
      && r.input.kind == item.kind && r.input.name == item.name
      && r.input.category == CategoryOf(item.kind)
    ensures r.BuyInventoryRequest? ==>
      r.req == BuyRequest(item.kind, item.name, OrOne(item.quantity.GetOr(0)), item.price, "units")
  {
    if !CanAfford(currency, item) then
      NotEnoughCoins("Not enough coins! You need " + IntToString(item.price) + " coins.")
    else if category == "animals" then
      CreateAnimalRequest(AnimalInput(item.name, item.kind, CategoryOf(item.kind), None, None, None, None, None, None, None))
    else
      BuyInventoryRequest(BuyRequest(item.kind, item.name, OrOne(item.quantity.GetOr(0)), item.price, "units"))
  }

  /** The JSON body a purchase answers with, as far as balances go: `user` at the top, where the
      page looks, and `data.user`, where the inventory endpoint puts the new balance. */
  datatype ReplyBody = ReplyBody(user: Option<int>, dataUser: Option<int>)

  /** buyInventory's 200 body `{ success, data: { inventory, user: { currency } } }`, unwrapped
      once by the service. */
  function BuyReply(balance: int): (r: ReplyBody)
    ensures r.user.None? && r.dataUser == Some(balance)
  {
    ReplyBody(None, Some(balance))
  }

  /** createAnimal's 201 body `{ success, data: animal }`, which carries no balance. */
  const AnimalReply: ReplyBody := ReplyBody(None, None)

  /** The balance shown afterwards: the reply's top-level user balance, or the old balance less the
      listed price. */
  function BalanceAfter(currency: int, reply: ReplyBody, item: MarketItem): (b: int)
    ensures reply.user.Some? ==> b == reply.user.value
    ensures reply.user.None? ==> b == currency - item.price
  {
    reply.user.GetOr(currency - item.price)
  }

  /** Neither endpoint puts a balance where the page looks, so the page always shows the old
      balance less the listed price, whatever the server charged. */
  lemma ShownBalanceIsAlwaysFallback(currency: int, balance: int, item: MarketItem)
    ensures BalanceAfter(currency, BuyReply(balance), item) == currency - item.price
    ensures BalanceAfter(currency, AnimalReply, item) == currency - item.price
    ensures balance != currency - item.price ==>
      BalanceAfter(currency, BuyReply(balance), item) != BuyReply(balance).dataUser.value
  {
  }

  /** The page's guard tests one unit's price, but the server charges the listing's price for
      every unit in the pack: a balance covering one unit and short of the pack passes the page
      and is refused by the server's funds check. */
  lemma GuardWeakerThanServer(i: int, currency: int)
    requires 0 <= i < |InventoryListings|
    requires InventoryListings[i].price <= currency < InventoryListings[i].price * InventoryListings[i].quantity.value
    ensures HandlePurchase("supplies", currency, InventoryListings[i]).BuyInventoryRequest?
    ensures TotalCost(HandlePurchase("supplies", currency, InventoryListings[i]).req) > currency
  {
    var item := InventoryListings[i];
    assert item.kind in ItemTypes && item.price == DefaultPrice(item.kind);
  }

  /** After buying a pack, the page takes off the listed price once although the server charged
      it for every unit: the shown balance exceeds the server's by the price of every unit after
      the first. */
  lemma FallbackUndercharges(currency: int, i: int)
    requires 0 <= i < |InventoryListings| && CanAfford(currency, InventoryListings[i])
    ensures var item := InventoryListings[i];
      var charged := TotalCost(HandlePurchase("supplies", currency, item).req);
      BalanceAfter(currency, BuyReply(currency - charged), item) == currency - charged + (item.quantity.value - 1) * item.price
  {
    var item := InventoryListings[i];
    assert item.kind in ItemTypes && item.price == DefaultPrice(item.kind) && item.quantity.value >= 1;
    var req := HandlePurchase("supplies", currency, item).req;
    assert req == BuyRequest(item.kind, item.name, item.quantity.value, item.price, "units");
    var q := item.quantity.value;
    assert TotalCost(req) == item.price * q;
    assert item.price * q == item.price + (q - 1) * item.price;
  }

  /** After buying an animal, which createAnimal never charges for, the page shows the balance
      less the listed price. */
  lemma AnimalPurchaseShowsCharge(currency: int, item: MarketItem)
    requires CanAfford(currency, item) && item.price > 0
    ensures HandlePurchase("animals", currency, item).CreateAnimalRequest?
    ensures BalanceAfter(currency, AnimalReply, item) < currency
  {
  }
}
