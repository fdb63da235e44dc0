/** The item page's decisions: the sell-quantity input and guard, the displayed
    sale value, and when the buy and sell buttons are enabled. Its time-since
    text is AnimalDetail.TimeSince. */
module InventoryDetail {
  import opened Common
  import opened AnimalModel
  import opened InventoryModel
  import opened InventoryController

  /** setSellQuantity(parseInt(value) || 1): unparsable input and 0 become 1. */
  function SellInput(parsed: Option<int>): (q: int)
    ensures q != 0
    ensures parsed.Some? && parsed.value != 0 ==> q == parsed.value
    ensures parsed.None? || parsed == Some(0) ==> q == 1
  {
    match parsed
    case None => 1
    case Some(n) => if n != 0 then n else 1
  }

  /** The sell quantity set when the item loads: Math.min(1, quantity). */
  function InitialSellQuantity(held: int): (q: int)
    ensures q <= 1 && q <= held
    ensures q == 1 || q == held
  {
    Min(1, held)
  }

  datatype SellDecision = InvalidQuantity | SendSell(quantity: int)

  /** handleSell's guard: a quantity of 0 or below, or above what is held, is refused before any
      request; otherwise that quantity is sent. */
  function SellGuard(sellQuantity: int, held: int): (d: SellDecision)
    ensures d.InvalidQuantity? <==> sellQuantity <= 0 || sellQuantity > held
    ensures d.SendSell? ==> d.quantity == sellQuantity && 1 <= d.quantity <= held
  {
    if sellQuantity <= 0 || sellQuantity > held then InvalidQuantity else SendSell(sellQuantity)
  }

  /** Right after loading, selling goes through exactly when something is held. */
  lemma InitialQuantitySellsOnlyWithStock(held: int)
    ensures SellGuard(InitialSellQuantity(held), held).SendSell? <==> held >= 1
  {
  }

  /** A quantity the guard lets through is one the server's checks accept too: it is neither
      negative against the stock nor above it, and the server's credit for it is not negative. */
  lemma GuardedSellPassesServerCheck(sellQuantity: int, it: ItemRecord)
    requires SellGuard(sellQuantity, it.quantity).SendSell? && it.price >= 0
    ensures sellQuantity <= it.quantity && sellQuantity >= 1
    ensures SellPrice(it.price, sellQuantity) >= 0
  {
  }

  /** The unit sale value shown: Math.round(price * 0.8), never above a non-negative price. */
  function UnitSellValue(price: int): (u: int)
    ensures price >= 0 ==> 0 <= u <= price
  {
    RoundFourFifths(price);
    Round(price as real * 0.8)
  }

  /** The total on the sell button: the rounded unit value times the quantity, never above what
      that many units cost at the stored price. */
  function DisplayedTotal(price: int, quantity: int): (t: int)
    ensures price >= 0 && quantity >= 0 ==> 0 <= t <= price * quantity
  {
    var u := UnitSellValue(price);
    if price >= 0 && quantity > 0 then
      MulMonotone(0, u, quantity);
      MulMonotone(u, price, quantity);
      u * quantity
    else u * quantity
  }

  /** For a single unit the page shows what the server credits. */
  lemma DisplayedTotalOfOneIsCredit(price: int)
    ensures DisplayedTotal(price, 1) == SellPrice(price, 1)
  {
  }

  /** For more units the two round at different points and can differ: 5 units at 13 show 50
      (round(10.4) = 10, times 5) while the server credits round(52.0) = 52. */
  lemma DisplayedTotalDiffersFromCredit()
    ensures DisplayedTotal(13, 5) == 50
    ensures SellPrice(13, 5) == 52
  {
    assert 13 as real * 0.8 + 0.5 == 10.9;
    assert (13 * 5) as real * 0.8 + 0.5 == 52.5;
  }

  /** Rounding four fifths of an integer is an integer division. */
  lemma RoundFourFifths(n: int)
    ensures Round(n as real * 0.8) == (8 * n + 5) / 10
  {
    var r := Round(n as real * 0.8);
    assert 10 * r <= 8 * n + 5 < 10 * r + 10;
    FloorUnique(8 * n + 5, 10, r);
  }

  lemma ScaledUnitBounds(p: int, q: int, u: int)
    requires q >= 1 && 10 * u <= 8 * p + 5 < 10 * u + 10
    ensures 8 * (p * q) - 5 * q < 10 * (u * q) <= 8 * (p * q) + 5 * q
  {
    MulMonotone(10 * u, 8 * p + 5, q);
    MulMonotone(8 * p + 5, 10 * u + 9, q);
    assert (8 * p + 5) * q == 8 * (p * q) + 5 * q;
    assert (10 * u + 9) * q == 10 * (u * q) + 9 * q;
    assert (10 * u) * q == 10 * (u * q);
  }

  lemma GapOfBrackets(uq: int, s: int, pq: int, q: int)
    requires 8 * pq - 5 * q < 10 * uq <= 8 * pq + 5 * q
    requires 10 * s <= 8 * pq + 5 < 10 * s + 10
    ensures 2 * (uq - s) < q + 1 && 2 * (s - uq) < q + 1
  {
  }

  /** The shown total is within (quantity + 1) / 2 of the credit. */
  lemma DisplayedTotalNearCredit(price: int, quantity: int)
    requires quantity >= 1
    ensures 2 * (DisplayedTotal(price, quantity) - SellPrice(price, quantity)) < quantity + 1
    ensures 2 * (SellPrice(price, quantity) - DisplayedTotal(price, quantity)) < quantity + 1
  {
    RoundFourFifths(price);
    RoundFourFifths(price * quantity);
    var u, s := (8 * price + 5) / 10, (8 * (price * quantity) + 5) / 10;
    ScaledUnitBounds(price, quantity, u);
    GapOfBrackets(u * quantity, s, price * quantity, quantity);
  }

  /** The buy button: disabled while an action runs or when the balance is below price times the
      quantity chosen. */
  predicate BuyDisabled(actionInProgress: bool, currency: int, price: int, purchaseQuantity: int) {
    actionInProgress || currency < price * purchaseQuantity
  }

  /** The sell button: disabled while an action runs or when the quantity exceeds the stock. */
  predicate SellDisabled(actionInProgress: bool, held: int, sellQuantity: int) {
    actionInProgress || held < sellQuantity
  }

  /** With no action running, the sell button is enabled for a quantity of at least one exactly
      when the guard sends that quantity as typed. */
  lemma EnabledSellPassesGuard(held: int, sellQuantity: int)
    ensures !SellDisabled(false, held, sellQuantity) && sellQuantity >= 1 <==>
      SellGuard(sellQuantity, held) == SendSell(sellQuantity)
  {
  }

  /** For a record at its type's catalogue price the buy button's check is the server's funds
      guard for the request the page sends (the type and the quantity only). */
  lemma BuyEnabledMatchesServerGuard(currency: int, it: ItemRecord, quantity: int)
    requires it.kind in ItemTypes && it.price == DefaultPrice(it.kind) && quantity >= 1
    ensures !BuyDisabled(false, currency, it.price, quantity) <==>
      TotalCost(BuyRequest(it.kind, "", quantity, 0, "")) <= currency
  {
  }
}
