/** The animal page's decisions: which inventory entries it offers as food or
    medicine, the health colour, the time-since-care text, how it updates its
    inventory list after a use, and what the feed and water buttons do. */
module AnimalDetail {
  import opened Common
  import opened AnimalModel
  import opened InventoryModel
  import opened InventoryController
  import opened AnimalController
  import opened Database

  const MsPerMinute: int := 60000

  // ---------------------------------------------------------------------
  // Food and medicine offered

  const PetFoods: seq<string> := ["feed", "premium_feed", "treats"]
  const LivestockFoods: seq<string> := ["livestockFeed", "feed", "premium_feed"]
  const Medicines: seq<string> := ["medicine", "basic_medicine", "advanced_medicine"]

  /** validFoodMap, looked up with the lower-cased animal type; a type it lacks gets nothing. */
  function ValidFood(animalType: string): (r: seq<string>)
    ensures ToLower(animalType) == "dog" ==> r == ["dogFood"] + PetFoods
    ensures ToLower(animalType) == "cat" ==> r == ["catFood"] + PetFoods
    ensures ToLower(animalType) in ["cow", "pig", "chicken", "horse", "sheep"] ==> r == LivestockFoods
    ensures ToLower(animalType) !in ["dog", "cat", "cow", "pig", "chicken", "horse", "sheep"] ==> r == []
    ensures forall k :: 0 <= k < |r| ==> r[k] in ItemTypes
  {
    var t := ToLower(animalType);
    if t == "dog" then ["dogFood"] + PetFoods
    else if t == "cat" then ["catFood"] + PetFoods
    else if t == "cow" || t == "pig" || t == "chicken" || t == "horse" || t == "sheep" then LivestockFoods
    else []
  }

  /** Whether the page offers an entry as food for an animal of type `t`. */
  predicate Offered(t: string, v: ItemView) {
    v.item.kind in ValidFood(t) && v.item.quantity > 0
  }

  /** getAvailableFoodItems: nothing without an animal, else the entries of an allowed type with
      something left. */
  function FoodItems(animal: Option<string>, inventory: seq<ItemView>): (r: seq<ItemView>)
    ensures animal.None? ==> r == []
    ensures animal.Some? ==> forall k :: 0 <= k < |r| ==> r[k] in inventory && Offered(animal.value, r[k])
    ensures animal.Some? ==> forall k :: 0 <= k < |inventory| && Offered(animal.value, inventory[k]) ==> inventory[k] in r
  {
    match animal
    case None => []
    case Some(t) => Filter(inventory, (v: ItemView) => Offered(t, v))
  }

  /** The offer keeps list order: the offer from two lists end to end is the two offers end to end. */
  lemma FoodItemsKeepOrder(animal: Option<string>, xs: seq<ItemView>, ys: seq<ItemView>)
    ensures FoodItems(animal, xs + ys) == FoodItems(animal, xs) + FoodItems(animal, ys)
  {
    if animal.Some? {
      FilterConcat(xs, ys, (v: ItemView) => Offered(animal.value, v));
    }
  }

  /** A goat, or any type the map lacks, in any casing, is offered no food at all. */
  lemma UnlistedAnimalsGetNoFood(t: string, inventory: seq<ItemView>)
    requires ToLower(t) !in ["dog", "cat", "cow", "pig", "chicken", "horse", "sheep"]
    ensures FoodItems(Some(t), inventory) == []
  {
    var r := FoodItems(Some(t), inventory);
    assert ValidFood(t) == [];
    assert |r| > 0 ==> r[0].item.kind in ValidFood(t);
  }

  /** Treats are offered only to dogs and cats. */
  lemma TreatsOnlyForPets(t: string, inventory: seq<ItemView>, v: ItemView)
    requires v in FoodItems(Some(t), inventory) && v.item.kind == "treats"
    ensures ToLower(t) == "dog" || ToLower(t) == "cat"
  {
    var r := FoodItems(Some(t), inventory);
    var k :| 0 <= k < |r| && r[k] == v;
    assert Offered(t, v);
  }

  /** getAvailableMedicineItems: the medicine entries with something left, in list order. */
  function MedicineItems(inventory: seq<ItemView>): (r: seq<ItemView>)
    ensures forall k :: 0 <= k < |r| ==> r[k] in inventory && r[k].item.kind in Medicines && r[k].item.quantity > 0
    ensures forall k :: 0 <= k < |inventory| && inventory[k].item.kind in Medicines && inventory[k].item.quantity > 0 ==>
      inventory[k] in r
  {
    Filter(inventory, (v: ItemView) => v.item.kind in Medicines && v.item.quantity > 0)
  }

  /** Every medicine offered is one the server's useOn treats as medicine. */
  lemma OfferedMedicineHeals(inventory: seq<ItemView>, k: int)
    requires 0 <= k < |MedicineItems(inventory)|
    ensures IsMedicineType(MedicineItems(inventory)[k].item.kind)
  {
  }

  // ---------------------------------------------------------------------
  // Health colour

  /** getHealthColor on this page: green from 70, yellow from 40, red below. */
  function HealthColour(health: int): (c: Colour)
    ensures c == Green <==> health >= 70
    ensures c == Yellow <==> 40 <= health < 70
    ensures c == Red <==> health < 40
  {
    if health >= 70 then Green else if health >= 40 then Yellow else Red
  }

  // ---------------------------------------------------------------------
  // Time since last care

  datatype Elapsed = Never | Minutes(n: int) | Hours(n: int) | Days(n: int)

  /** Whole hours behind `d` milliseconds, then whole days from those hours, are whole days. */
  lemma DaysFromHours(d: int)
    ensures (d / MsPerHour) / 24 == d / MsPerDay
  {
    var h := d / MsPerHour;
    var days := h / 24;
    assert h * MsPerHour <= d < (h + 1) * MsPerHour;
    assert days * 24 <= h < (days + 1) * 24;
    MulMonotone(days * 24, h, MsPerHour);
    MulMonotone(h + 1, (days + 1) * 24, MsPerHour);
    FloorUnique(d, MsPerDay, days);
  }

  /** The bucket the time since `timestamp`, as of `now`, falls in: none without a timestamp,
      minutes under an hour, hours under a day, and whole days otherwise. */
  function ElapsedSince(timestamp: Option<int>, now: int): (e: Elapsed)
    ensures e.Never? <==> timestamp.None?
    ensures e.Minutes? ==> now - timestamp.value < MsPerHour && e.n == (now - timestamp.value) / MsPerMinute
    ensures e.Hours? ==>
      && MsPerHour <= now - timestamp.value < MsPerDay && 1 <= e.n < 24
      && e.n * MsPerHour <= now - timestamp.value < (e.n + 1) * MsPerHour
    ensures e.Days? ==> MsPerDay <= now - timestamp.value && e.n >= 1 && e.n == (now - timestamp.value) / MsPerDay
  {
    match timestamp
    case None => Never
    case Some(ts) =>
      var hours := (now - ts) / MsPerHour;
      if hours < 1 then Minutes((now - ts) / MsPerMinute)
      else if hours < 24 then Hours(hours)
      else DaysFromHours(now - ts); Days(hours / 24)
  }

  /** "<n> <unit>[s] ago". */
  function Phrase(n: int, unit: string): string {
    IntToString(n) + " " + unit + (if n != 1 then "s" else "") + " ago"
  }

  /** getTimeSinceLastCare (and, identically, getTimeSinceLastPurchase on the item page). */
  function TimeSince(timestamp: Option<int>, now: int): (r: string)
    ensures timestamp.None? <==> r == "Never"
    ensures timestamp.Some? && now - timestamp.value < MsPerHour ==>
      r == Phrase((now - timestamp.value) / MsPerMinute, "minute")
    ensures timestamp.Some? && MsPerHour <= now - timestamp.value < MsPerDay ==>
      r == Phrase((now - timestamp.value) / MsPerHour, "hour")
    ensures timestamp.Some? && MsPerDay <= now - timestamp.value ==>
      r == Phrase((now - timestamp.value) / MsPerDay, "day")
  {
    match ElapsedSince(timestamp, now)
    case Never => "Never"
    case Minutes(n) => Phrase(n, "minute")
    case Hours(n) => Phrase(n, "hour")
    case Days(n) => Phrase(n, "day")
  }

  /** The unit is plural exactly when the count is not 1. */
  lemma PhrasePlural(n: int, unit: string)
    requires unit in ["minute", "hour", "day"]
    ensures var p := Phrase(n, unit); |p| >= 5 && (p[|p| - 5] == 's' <==> n != 1)
    ensures var p := Phrase(n, unit); p[|p| - 4..] == " ago"
  {
    var p := Phrase(n, unit);
    var s := if n != 1 then "s" else "";
    assert p == (IntToString(n) + " " + unit + s) + " ago";
    assert unit[|unit| - 1] != 's';
  }

  // ---------------------------------------------------------------------
  // The inventory list after a use

  /** The map step: the used entry becomes the returned record, or a hole when none came back. */
  function Replace(inventory: seq<ItemView>, usedId: Id, returned: Option<ItemRecord>): (r: seq<Option<ItemView>>)
    ensures |r| == |inventory|
    ensures forall k :: 0 <= k < |r| ==>
      r[k] == if inventory[k].id != usedId then Some(inventory[k])
              else if returned.Some? then Some(ItemView(usedId, returned.value)) else None
  {
    seq(|inventory|, k requires 0 <= k < |inventory| =>
      if inventory[k].id != usedId then Some(inventory[k])
      else if returned.Some? then Some(ItemView(usedId, returned.value)) else None)
  }

  /** filter(Boolean): the holes dropped. */
  function Present(s: seq<Option<ItemView>>): seq<ItemView> {
    if s == [] then [] else (if s[0].Some? then [s[0].value] else []) + Present(s[1..])
  }

  /** The list after a use of entry `usedId`, given the record the server returned, if any. */
  function AfterUseList(inventory: seq<ItemView>, usedId: Id, returned: Option<ItemRecord>): seq<ItemView> {
    Present(Replace(inventory, usedId, returned))
  }

  lemma {:induction false} PresentOfFull(s: seq<Option<ItemView>>)
    requires forall k :: 0 <= k < |s| ==> s[k].Some?
    ensures |Present(s)| == |s|
    ensures forall k :: 0 <= k < |s| ==> Present(s)[k] == s[k].value
  {
    if s != [] {
      PresentOfFull(s[1..]);
    }
  }

  lemma {:induction false} PresentOfHoles(inventory: seq<ItemView>, usedId: Id)
    ensures Present(Replace(inventory, usedId, None)) == Filter(inventory, (v: ItemView) => v.id != usedId)
  {
    if inventory != [] {
      assert Replace(inventory, usedId, None)[1..] == Replace(inventory[1..], usedId, None);
      PresentOfHoles(inventory[1..], usedId);
    }
  }

  /** With a record returned, the used entry is replaced in place and nothing else changes;
      without one, the used entry is dropped and the others keep their order. */
  lemma AfterUseListSpec(inventory: seq<ItemView>, usedId: Id, returned: Option<ItemRecord>)
    ensures returned.Some? ==>
      var r := AfterUseList(inventory, usedId, returned);
      |r| == |inventory|
      && forall k :: 0 <= k < |r| ==>
           r[k] == if inventory[k].id == usedId then ItemView(usedId, returned.value) else inventory[k]
    ensures returned.None? ==> AfterUseList(inventory, usedId, returned) == Filter(inventory, (v: ItemView) => v.id != usedId)
  {
    if returned.Some? {
      PresentOfFull(Replace(inventory, usedId, returned));
    } else {
      PresentOfHoles(inventory, usedId);
    }
  }

  /** The views of a list with a first id are that id's view followed by the views of the rest. */
  lemma ViewsOfCons(items: map<Id, ItemRecord>, id: Id, ids: seq<Id>)
    requires id in items && forall k :: 0 <= k < |ids| ==> ids[k] in items
    ensures ViewsOf(items, [id] + ids) == [ItemView(id, items[id])] + ViewsOf(items, ids)
  {
    var l, r := ViewsOf(items, [id] + ids), [ItemView(id, items[id])] + ViewsOf(items, ids);
    assert forall k :: 0 <= k < |l| ==> l[k] == r[k] by {
      forall k | 0 <= k < |l| ensures l[k] == r[k] {
        if k > 0 { assert ([id] + ids)[k] == ids[k - 1]; }
      }
    }
  }

  lemma {:induction false} FilterOfViews(items: map<Id, ItemRecord>, ids: seq<Id>, usedId: Id)
    requires forall k :: 0 <= k < |ids| ==> ids[k] in items
    ensures var kept := Filter(ids, (i: Id) => i != usedId);
      Filter(ViewsOf(items, ids), (v: ItemView) => v.id != usedId) == ViewsOf(items - {usedId}, kept)
  {
    if ids != [] {
      var pv, pi := (v: ItemView) => v.id != usedId, (i: Id) => i != usedId;
      var views, rest := ViewsOf(items, ids), ids[1..];
      FilterOfViews(items, rest, usedId);
      assert views == [views[0]] + views[1..];
      assert views[1..] == ViewsOf(items, rest);
      assert views[0] == ItemView(ids[0], items[ids[0]]);
      var kept := Filter(rest, pi);
      assert forall k :: 0 <= k < |kept| ==> kept[k] in items - {usedId};
      if ids[0] != usedId {
        assert Filter(views, pv) == [views[0]] + Filter(views[1..], pv);
        assert Filter(ids, pi) == [ids[0]] + kept;
        ViewsOfCons(items - {usedId}, ids[0], kept);
      } else {
        assert Filter(views, pv) == Filter(views[1..], pv);
        assert Filter(ids, pi) == kept;
      }
    }
  }

  /** When the page's list mirrors the server's records, it still mirrors them after a use: the
      list update on the returned record matches what the server wrote back or deleted. */
  lemma ListFollowsServer(items: map<Id, ItemRecord>, ids: seq<Id>, usedId: Id)
    requires usedId in items && forall k :: 0 <= k < |ids| ==> ids[k] in items
    ensures AfterUse(items[usedId]).Some? ==>
      AfterUseList(ViewsOf(items, ids), usedId, AfterUse(items[usedId])) == ViewsOf(UsedUp(items, usedId), ids)
    ensures AfterUse(items[usedId]).None? ==>
      AfterUseList(ViewsOf(items, ids), usedId, AfterUse(items[usedId]))
        == ViewsOf(UsedUp(items, usedId), Filter(ids, (i: Id) => i != usedId))
  {
    AfterUseListSpec(ViewsOf(items, ids), usedId, AfterUse(items[usedId]));
    if AfterUse(items[usedId]).None? {
      FilterOfViews(items, ids, usedId);
    }
  }

  // ---------------------------------------------------------------------
  // The feed button

  datatype FeedAction = NoFoodMessage | FeedWith(itemId: Id) | ChooseFood(options: seq<ItemView>)

  /** handleFeed: a message and no request without food, feeding at once with the single option,
      and the selector when there are several. */
  function HandleFeed(animal: Option<string>, inventory: seq<ItemView>): (a: FeedAction)
    ensures a.NoFoodMessage? <==> FoodItems(animal, inventory) == []
    ensures a.FeedWith? <==> |FoodItems(animal, inventory)| == 1
    ensures a.FeedWith? ==> a.itemId == FoodItems(animal, inventory)[0].id
    ensures a.ChooseFood? ==> a.options == FoodItems(animal, inventory) && |a.options| >= 2
  {
    var food := FoodItems(animal, inventory);
    if |food| == 0 then NoFoodMessage
    else if |food| == 1 then FeedWith(food[0].id)
    else ChooseFood(food)
  }

  /** The entry fed at once is in the list, suits the animal and has stock. */
  lemma FedItemSuits(t: string, inventory: seq<ItemView>)
    requires HandleFeed(Some(t), inventory).FeedWith?
    ensures exists k ::
      0 <= k < |inventory| && inventory[k].id == HandleFeed(Some(t), inventory).itemId && Offered(t, inventory[k])
  {
    var v := FoodItems(Some(t), inventory)[0];
    var k :| 0 <= k < |inventory| && inventory[k] == v;
  }

  // ---------------------------------------------------------------------
  // The water button

  /** `inventory.find(item => item.type === "water")`: the position of the first water entry. */
  function FirstWater(inventory: seq<ItemView>): (r: Option<nat>)
    ensures r.Some? ==>
      && r.value < |inventory| && inventory[r.value].item.kind == "water"
      && forall j :: 0 <= j < r.value ==> inventory[j].item.kind != "water"
    ensures r.None? ==> forall j :: 0 <= j < |inventory| ==> inventory[j].item.kind != "water"
  {
    if inventory == [] then None
    else if inventory[0].item.kind == "water" then Some(0)
    else match FirstWater(inventory[1..])
      case None => None
      case Some(i) => Some(i + 1)
  }

  datatype WaterAction = NoWaterMessage | WaterWith(itemId: Id)

  /** handleWater: a message and no request unless the first water entry has something left;
      otherwise a request naming that entry. */
  function HandleWater(inventory: seq<ItemView>): (a: WaterAction)
    ensures a.WaterWith? <==>
      FirstWater(inventory).Some? && inventory[FirstWater(inventory).value].item.quantity > 0
    ensures a.WaterWith? ==> a.itemId == inventory[FirstWater(inventory).value].id
  {
    match FirstWater(inventory)
    case None => NoWaterMessage
    case Some(i) => if inventory[i].item.quantity <= 0 then NoWaterMessage else WaterWith(inventory[i].id)
  }

  /** When the page's list is the server's listing of the user's records, the water button sends
      a request exactly when the server's water handler gets past its 400, and the entry the page
      names is the record the server's own findOne picks. */
  lemma PageWaterMatchesServer(items: map<Id, ItemRecord>, nextId: nat, user: Id)
    requires forall id :: id in items ==> id < nextId
    ensures var ids := Matching(items, (it: ItemRecord) => it.userId == user, nextId);
      var a := HandleWater(ViewsOf(items, ids));
      var w := FirstOfType(items, user, "water", nextId);
      && (a.WaterWith? <==> w.Some? && items[w.value].quantity >= 1)
      && (a.WaterWith? ==> a.itemId == w.value)
  {
    var ids := Matching(items, (it: ItemRecord) => it.userId == user, nextId);
    WaterOfListing(items, nextId, user, ids);
  }

  /** The same, for any list of the user's ids in increasing order that holds all of them. */
  lemma WaterOfListing(items: map<Id, ItemRecord>, nextId: nat, user: Id, ids: seq<Id>)
    requires forall k :: 0 <= k < |ids| ==> ids[k] in items && items[ids[k]].userId == user && ids[k] < nextId
    requires forall id :: id in items && items[id].userId == user && id < nextId ==> id in ids
    requires forall k, l :: 0 <= k < l < |ids| ==> ids[k] < ids[l]
    ensures var a := HandleWater(ViewsOf(items, ids));
      var w := FirstOfType(items, user, "water", nextId);
      && (a.WaterWith? <==> w.Some? && items[w.value].quantity >= 1)
      && (a.WaterWith? ==> a.itemId == w.value)
  {
    var views := ViewsOf(items, ids);
    FirstOfTypeSpec(items, user, "water", nextId);
    match FirstWater(views)
    case None =>
      forall j | j in items && j < nextId && items[j].userId == user
        ensures items[j].kind != "water"
      {
        var m :| 0 <= m < |ids| && ids[m] == j;
        assert views[m].item == items[j];
      }
    case Some(i) =>
      assert views[i].item == items[ids[i]];
      var w := FirstOfType(items, user, "water", nextId).value;
      var m :| 0 <= m < |ids| && ids[m] == w;
      assert views[m].item == items[w];
      assert i <= m;
  }
}
