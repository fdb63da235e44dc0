/** The inventory document: the case-insensitive `type` setter, the
    per-type default tables, and `useOn`, which spends one unit of an item
    on an animal. */
module InventoryModel {
  import opened Common
  import opened AnimalModel

  const ItemTypes: seq<string> := [
    "dogFood", "catFood", "livestockFeed", "water", "medicine", "treats",
    "feed", "premium_feed", "vitamins", "basic_medicine", "advanced_medicine"]

  const Units: seq<string> := ["lbs", "gallons", "units"]

  // ---------------------------------------------------------------------
  // The `type` setter

  /** Array.prototype.find comparing lower-cased forms. */
  function FindIgnoringCase(candidates: seq<string>, v: string): Option<string> {
    if candidates == [] then None
    else if ToLower(candidates[0]) == ToLower(v) then Some(candidates[0])
    else FindIgnoringCase(candidates[1..], v)
  }

  /** The search finds a candidate equal to the value up to case, and fails only when there is none. */
  lemma {:induction false} FindIgnoringCaseSpec(candidates: seq<string>, v: string)
    ensures FindIgnoringCase(candidates, v).Some? ==>
      FindIgnoringCase(candidates, v).value in candidates && ToLower(FindIgnoringCase(candidates, v).value) == ToLower(v)
    ensures FindIgnoringCase(candidates, v).None? <==> forall i :: 0 <= i < |candidates| ==> ToLower(candidates[i]) != ToLower(v)
  {
    if candidates != [] && ToLower(candidates[0]) != ToLower(v) {
      FindIgnoringCaseSpec(candidates[1..], v);
      assert forall i :: 1 <= i < |candidates| ==> candidates[i] == candidates[1..][i - 1];
    }
  }

  /** The search only ever looks at the lower-cased form of the value. */
  lemma {:induction false} FindDependsOnLowerOnly(candidates: seq<string>, a: string, b: string)
    requires ToLower(a) == ToLower(b)
    ensures FindIgnoringCase(candidates, a) == FindIgnoringCase(candidates, b)
  {
    if candidates != [] {
      FindDependsOnLowerOnly(candidates[1..], a, b);
    }
  }

  /** The enum values in lower case: the form the setter compares a value against. */
  const LoweredItemTypes: seq<string> := [
    "dogfood", "catfood", "livestockfeed", "water", "medicine", "treats",
    "feed", "premium_feed", "vitamins", "basic_medicine", "advanced_medicine"]

  lemma LoweredItemTypesAreLowered()
    ensures |LoweredItemTypes| == |ItemTypes|
    ensures forall i :: 0 <= i < |ItemTypes| ==> LoweredItemTypes[i] == ToLower(ItemTypes[i])
  {
    forall i | 0 <= i < |ItemTypes|
      ensures LoweredItemTypes[i] == ToLower(ItemTypes[i])
    {
      LowerCharwise(ItemTypes[i], LoweredItemTypes[i]);
    }
  }


  /** The same search as FindIgnoringCase, with the candidates' lower-cased forms given alongside
      them and the value already lower-cased. */
  function FindLowered(candidates: seq<string>, lowered: seq<string>, key: string): Option<string>
    requires |candidates| == |lowered|
  {
    if candidates == [] then None
    else if lowered[0] == key then Some(candidates[0])
    else FindLowered(candidates[1..], lowered[1..], key)
  }

  lemma {:induction false} FindLoweredAgrees(candidates: seq<string>, lowered: seq<string>, v: string)
    requires |candidates| == |lowered|
    requires forall i :: 0 <= i < |candidates| ==> lowered[i] == ToLower(candidates[i])
    ensures FindLowered(candidates, lowered, ToLower(v)) == FindIgnoringCase(candidates, v)
  {
    if candidates != [] {
      assert forall i :: 0 <= i < |candidates| - 1 ==> lowered[1..][i] == lowered[i + 1] && candidates[1..][i] == candidates[i + 1];
      FindLoweredAgrees(candidates[1..], lowered[1..], v);
    }
  }

  /** The setter: the enum spelling that matches up to case, else the value unchanged. */
  function CanonicalType(v: string): string {
    match FindLowered(ItemTypes, LoweredItemTypes, ToLower(v))
    case Some(t) => t
    case None => v
  }

  /** The tabulated search is the setter's `find` over lower-cased enum values. */
  lemma CanonicalTypeIsSetter(v: string)
    ensures CanonicalType(v) == match FindIgnoringCase(ItemTypes, v) case Some(t) => t case None => v
  {
    LoweredItemTypesAreLowered();
    FindLoweredAgrees(ItemTypes, LoweredItemTypes, v);
  }

  /** The setter keeps the value up to case; it yields an enum value exactly when some enum value
      matches up to case, and leaves any other value as it was. */
  lemma CanonicalTypeSpec(v: string)
    ensures ToLower(CanonicalType(v)) == ToLower(v)
    ensures CanonicalType(v) in ItemTypes <==> exists i :: 0 <= i < |ItemTypes| && ToLower(ItemTypes[i]) == ToLower(v)
    ensures CanonicalType(v) !in ItemTypes ==> CanonicalType(v) == v
  {
    CanonicalTypeIsSetter(v);
    FindIgnoringCaseSpec(ItemTypes, v);
  }

  /** No two enum values differ only in case (they differ in length or in their first letter). */
  lemma ItemTypesDistinctIgnoringCase(i: int, j: int)
    requires 0 <= i < |ItemTypes| && 0 <= j < |ItemTypes|
    requires ToLower(ItemTypes[i]) == ToLower(ItemTypes[j])
    ensures i == j
  {
    var x, y := ItemTypes[i], ItemTypes[j];
    assert |x| == |y| && LowerChar(x[0]) == LowerChar(y[0]) by {
      assert |x| == |ToLower(x)| && |y| == |ToLower(y)|;
      assert ToLower(x)[0] == LowerChar(x[0]) && ToLower(y)[0] == LowerChar(y[0]);
    }
    SignatureDistinct(i, j);
  }

  lemma SignatureDistinct(i: int, j: int)
    requires 0 <= i < |ItemTypes| && 0 <= j < |ItemTypes|
    requires |ItemTypes[i]| == |ItemTypes[j]| && LowerChar(ItemTypes[i][0]) == LowerChar(ItemTypes[j][0])
    ensures i == j
  {
  }

  /** Any casing of an enum value is set to that enum value. */
  lemma CanonicalTypeIgnoresCase(v: string, i: int)
    requires 0 <= i < |ItemTypes|
    requires ToLower(v) == ToLower(ItemTypes[i])
    ensures CanonicalType(v) == ItemTypes[i]
  {
    var r := CanonicalType(v);
    CanonicalTypeSpec(v);
    assert r in ItemTypes;
    var j :| 0 <= j < |ItemTypes| && ItemTypes[j] == r;
    ItemTypesDistinctIgnoringCase(i, j);
  }

  /** An enum value is set to itself. */
  lemma CanonicalTypeKeepsItemTypes(v: string)
    ensures v in ItemTypes ==> CanonicalType(v) == v
  {
    if v in ItemTypes {
      var i :| 0 <= i < |ItemTypes| && ItemTypes[i] == v;
      CanonicalTypeIgnoresCase(v, i);
    }
  }

  /** Setting the type twice gives what setting it once gave. */
  lemma CanonicalTypeIdempotent(v: string)
    ensures CanonicalType(CanonicalType(v)) == CanonicalType(v)
  {
    CanonicalTypeSpec(v);
    CanonicalTypeIsSetter(v);
    CanonicalTypeIsSetter(CanonicalType(v));
    FindDependsOnLowerOnly(ItemTypes, CanonicalType(v), v);
  }

  // ---------------------------------------------------------------------
  // Default tables (looked up with the already-set type)

  /** The `price` default: a price per enum type, 10 for any other type. */
  function DefaultPrice(kind: string): (p: int)
    ensures p > 0
    ensures kind !in ItemTypes ==> p == 10
  {
    if kind == "dogFood" then 20
    else if kind == "catFood" then 15
    else if kind == "livestockFeed" then 10
    else if kind == "water" then 5
    else if kind == "medicine" then 50
    else if kind == "treats" then 10
    else if kind == "feed" then 20
    else if kind == "premium_feed" then 50
    else if kind == "vitamins" then 40
    else if kind == "basic_medicine" then 30
    else if kind == "advanced_medicine" then 80
    else 10
  }

  const Livestock: seq<string> := ["cow", "pig", "chicken", "horse", "sheep", "goat"]

  /** The `affectsAnimalTypes` default: some animal types for each enum type, none otherwise. */
  function DefaultAffects(kind: string): (r: seq<string>)
    ensures forall i :: 0 <= i < |r| ==> r[i] in AnimalTypes
    ensures kind in ItemTypes <==> r != []
  {
    if kind == "dogFood" then ["dog"]
    else if kind == "catFood" then ["cat"]
    else if kind == "livestockFeed" || kind == "feed" then Livestock
    else if kind == "treats" then ["dog", "cat"]
    else if kind in ["water", "medicine", "premium_feed", "vitamins", "basic_medicine", "advanced_medicine"] then AnimalTypes
    else []
  }

  /** The `healthEffect` default: a positive effect per enum type, 0 otherwise. */
  function DefaultHealthEffect(kind: string): (e: int)
    ensures e >= 0
    ensures kind in ItemTypes <==> e > 0
  {
    if kind == "dogFood" || kind == "catFood" then 20
    else if kind == "livestockFeed" || kind == "feed" then 15
    else if kind == "water" then 25
    else if kind == "medicine" then 50
    else if kind == "treats" then 5
    else if kind == "premium_feed" then 30
    else if kind == "vitamins" then 20
    else if kind == "basic_medicine" then 40
    else if kind == "advanced_medicine" then 70
    else 0
  }

  // ---------------------------------------------------------------------
  // The stored record and its validators

  /** A stored inventory item. `kind` is the schema's `type` path. */
  datatype ItemRecord = ItemRecord(
    userId: Id,
    kind: string,
    name: string,
    quantity: int,
    unit: string,
    price: int,
    affects: seq<string>,
    healthEffect: int)

  /** The validators the schema declares: type and unit enums, a non-empty name, quantity and price >= 0. */
  predicate ItemSchemaValid(it: ItemRecord) {
    && it.kind in ItemTypes
    && it.name != ""
    && it.quantity >= 0
    && it.unit in Units
    && it.price >= 0
  }

  /** The schema paths whose validator fails, in schema order. */
  function ItemSchemaErrors(it: ItemRecord): (errs: seq<string>)
    ensures errs == [] <==> ItemSchemaValid(it)
  {
    (if it.kind in ItemTypes then [] else ["type"])
    + (if it.name != "" then [] else ["name"])
    + (if it.quantity >= 0 then [] else ["quantity"])
    + (if it.unit in Units then [] else ["unit"])
    + (if it.price >= 0 then [] else ["price"])
  }

  /** Inventory.create: the type and name setters run first, then the function defaults. */
  function NewItem(userId: Id, kind: string, name: string, quantity: int, unit: string, price: int): (r: ItemRecord)
    ensures r.userId == userId && r.quantity == quantity && r.unit == unit && r.price == price
    ensures r.kind == CanonicalType(kind) && r.name == Trim(name)
    ensures kind in ItemTypes ==> r.kind == kind
    ensures r.affects == DefaultAffects(r.kind) && r.healthEffect == DefaultHealthEffect(r.kind)
    ensures ItemSchemaValid(r) <==> CanonicalType(kind) in ItemTypes && Trim(name) != "" && quantity >= 0 && unit in Units && price >= 0
  {
    var k := CanonicalType(kind);
    CanonicalTypeKeepsItemTypes(kind);
    ItemRecord(userId, k, Trim(name), quantity, unit, price, DefaultAffects(k), DefaultHealthEffect(k))
  }

  // ---------------------------------------------------------------------
  // useOn: the effect of one unit on the animal

  predicate IsFoodType(kind: string) {
    kind in ["dogFood", "catFood", "livestockFeed", "feed", "premium_feed"]
  }

  predicate IsMedicineType(kind: string) {
    kind in ["medicine", "basic_medicine", "advanced_medicine"]
  }

  function FoodBoost(kind: string): int {
    if kind == "premium_feed" then 25 else 15
  }

  function MedicineBoost(kind: string): int {
    if kind == "advanced_medicine" then 40 else if kind == "medicine" then 30 else 20
  }

  /** The switch in useOn: what one unit of an item of type `kind` does to the animal at time `now`.
      The item's own healthEffect is not an input: the boosts are fixed per type. */
  function UseEffect(kind: string, a: AnimalRecord, now: int): (r: AnimalRecord)
    ensures r.lastCaredAt == now
    ensures r == a.(health := r.health, lastFed := r.lastFed, lastWatered := r.lastWatered,
                    lastCaredAt := now, happiness := r.happiness, isSick := r.isSick)
    ensures a.health <= 100 ==> a.health <= r.health <= 100
    ensures a.happiness <= 100 ==> a.happiness <= r.happiness <= 100
    ensures r.lastFed == (if IsFoodType(kind) then now else a.lastFed)
    ensures r.lastWatered == (if kind == "water" then now else a.lastWatered)
    ensures r.isSick == (if IsMedicineType(kind) then false else a.isSick)
    ensures kind == "treats" ==> r.health == a.health
    ensures kind != "treats" && kind != "vitamins" ==> r.happiness == a.happiness
  {
    if IsFoodType(kind) then
      a.(lastFed := now, health := Min(100, a.health + FoodBoost(kind)), lastCaredAt := now)
    else if kind == "water" then
      a.(lastWatered := now, health := Min(100, a.health + 10), lastCaredAt := now)
    else if IsMedicineType(kind) then
      a.(health := Min(100, a.health + MedicineBoost(kind)), isSick := false, lastCaredAt := now)
    else if kind == "treats" then
      a.(happiness := Min(100, a.happiness + 20), lastCaredAt := now)
    else if kind == "vitamins" then
      a.(health := Min(100, a.health + 15), happiness := Min(100, a.happiness + 10), lastCaredAt := now)
    else
      a.(health := Min(100, a.health + 10), lastCaredAt := now)
  }

  /** The health boost of one use, per type, as the switch assigns it (before the cap at 100). */
  function UseBoost(kind: string): (b: int)
    ensures 0 <= b <= 40
  {
    if IsFoodType(kind) then FoodBoost(kind)
    else if kind == "water" then 10
    else if IsMedicineType(kind) then MedicineBoost(kind)
    else if kind == "treats" then 0
    else if kind == "vitamins" then 15
    else 10
  }

  /** Health after one use is the old health plus the type's boost, capped at 100. */
  lemma UseEffectHealth(kind: string, a: AnimalRecord, now: int)
    ensures kind != "treats" ==> UseEffect(kind, a, now).health == Min(100, a.health + UseBoost(kind))
    ensures kind == "premium_feed" ==> UseBoost(kind) == 25
    ensures IsFoodType(kind) && kind != "premium_feed" ==> UseBoost(kind) == 15
    ensures UseBoost("advanced_medicine") == 40 && UseBoost("medicine") == 30 && UseBoost("basic_medicine") == 20
  {
  }

  /** Using an item on a stored animal leaves an animal that passes validation and the pet rule unchanged. */
  lemma UseEffectKeepsStored(kind: string, a: AnimalRecord, now: int)
    requires Stored(a)
    ensures Stored(UseEffect(kind, a, now))
    ensures SaveEffect(UseEffect(kind, a, now), Saved, UseEffect(kind, a, now))
  {
  }

  /** Outcome of useOn after the animal has been saved (or has failed to save). */
  datatype UseOutcome =
    | AnimalNotSaved(result: SaveResult)
    | ItemDeleted
    | ItemKept
    | ItemNotSaved(errors: seq<string>)

  class InventoryDoc {
    var userId: Id
    var kind: string
    var name: string
    var quantity: int
    var unit: string
    var price: int
    var affects: seq<string>
    var healthEffect: int

    function Record(): ItemRecord
      reads this
    {
      ItemRecord(userId, kind, name, quantity, unit, price, affects, healthEffect)
    }

    /** A document loaded from the collection. */
    constructor (r: ItemRecord)
      ensures Record() == r
    {
      userId, kind, name, quantity := r.userId, r.kind, r.name, r.quantity;
      unit, price, affects, healthEffect := r.unit, r.price, r.affects, r.healthEffect;
    }

    /** useOn: one unit less (with no check that any is left, nor that the item suits the
        animal), the type's effect on the animal, the animal saved; then the item is to be
        deleted when nothing is left and saved otherwise. */
    method UseOn(animal: AnimalDoc, now: int) returns (animalResult: SaveResult, out: UseOutcome)
      modifies this, animal
      ensures Record() == old(Record()).(quantity := old(quantity) - 1)
      ensures SaveEffect(UseEffect(old(kind), old(animal.Record()), now), animalResult, animal.Record())
      ensures animalResult != Saved ==> out == AnimalNotSaved(animalResult)
      ensures animalResult == Saved ==>
        out == (if quantity <= 0 then ItemDeleted
                else if ItemSchemaErrors(Record()) == [] then ItemKept
                else ItemNotSaved(ItemSchemaErrors(Record())))
    {
      quantity := quantity - 1;
      var effect := UseEffect(kind, animal.Record(), now);
      animal.Care(effect);
      animalResult := animal.Save();
      if animalResult != Saved {
        return animalResult, AnimalNotSaved(animalResult);
      }
      if quantity <= 0 {
        return animalResult, ItemDeleted;
      }
      var errs := ItemSchemaErrors(Record());
      out := if errs == [] then ItemKept else ItemNotSaved(errs);
    }
  }
}
