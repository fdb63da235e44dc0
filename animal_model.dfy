/** The animal document: its schema constraints and default value table,
    health decay derived from the care timestamps, age and market value,
    and the document methods that change health in place. */
module AnimalModel {
  import opened Common

  const MsPerHour: int := 3600000
  const MsPerDay: int := 86400000

  const AnimalTypes: seq<string> := ["dog", "cat", "cow", "pig", "chicken", "horse", "sheep", "goat"]
  const Categories: seq<string> := ["pet", "livestock"]

  /** The `value` default: a base value per animal type, 300 for any other type. */
  function DefaultValue(kind: string): (v: int)
    ensures v > 0
    ensures kind !in AnimalTypes ==> v == 300
  {
    if kind == "dog" then 500
    else if kind == "cat" then 400
    else if kind == "cow" then 1000
    else if kind == "pig" then 800
    else if kind == "chicken" then 200
    else if kind == "horse" then 2000
    else if kind == "sheep" then 600
    else if kind == "goat" then 500
    else 300
  }

  /** A stored animal. `kind` is the schema's `type` path. `happiness` and
      `isSick` are not declared by the schema; they are kept as plain fields
      because the consumables write them. */
  datatype AnimalRecord = AnimalRecord(
    userId: Id,
    name: string,
    kind: string,
    category: string,
    quantity: int,
    health: int,
    lastFed: int,
    lastWatered: int,
    lastCaredAt: int,
    createdAt: int,
    value: int,
    happiness: int,
    isSick: bool)

  /** The validators the schema declares: enums, quantity >= 1, health in [0, 100], value >= 0. */
  predicate SchemaValid(a: AnimalRecord) {
    && a.kind in AnimalTypes
    && a.category in Categories
    && a.quantity >= 1
    && 0 <= a.health <= 100
    && a.value >= 0
  }

  /** The schema paths whose validator fails, in schema order. */
  function SchemaErrors(a: AnimalRecord): (errs: seq<string>)
    ensures errs == [] <==> SchemaValid(a)
    ensures forall e :: e in errs ==> e in ["type", "category", "quantity", "health", "value"]
  {
    (if a.kind in AnimalTypes then [] else ["type"])
    + (if a.category in Categories then [] else ["category"])
    + (if a.quantity >= 1 then [] else ["quantity"])
    + (if 0 <= a.health <= 100 then [] else ["health"])
    + (if a.value >= 0 then [] else ["value"])
  }

  /** What the pre-save hook guarantees of every saved pet. */
  predicate PetRule(a: AnimalRecord) {
    a.category == "pet" ==> a.quantity == 1 && a.name != ""
  }

  /** Every animal in the collection passed validation and the pre-save hook. */
  predicate Stored(a: AnimalRecord) {
    SchemaValid(a) && PetRule(a)
  }

  /** The request body of Animal.create; an empty name is a missing name. The body may carry
      its own care timestamps and creation time. */
  datatype AnimalInput = AnimalInput(
    name: string,
    kind: string,
    category: string,
    quantity: Option<int>,
    health: Option<int>,
    value: Option<int>,
    lastFed: Option<int>,
    lastWatered: Option<int>,
    lastCaredAt: Option<int>,
    createdAt: Option<int>)

  /** Animal.create before validation: the trim and lowercase setters, then the defaults for the
      paths the body leaves out (quantity 1, health 100, each timestamp `now`, the type's base
      value). */
  function NewAnimal(userId: Id, input: AnimalInput, now: int): (a: AnimalRecord)
    ensures a.userId == userId
    ensures a.kind == ToLower(input.kind) && a.category == ToLower(input.category)
    ensures a.quantity == input.quantity.GetOr(1) && a.health == input.health.GetOr(100)
    ensures a.value == input.value.GetOr(DefaultValue(a.kind))
    ensures a.lastFed == input.lastFed.GetOr(now) && a.lastWatered == input.lastWatered.GetOr(now)
    ensures a.lastCaredAt == input.lastCaredAt.GetOr(now) && a.createdAt == input.createdAt.GetOr(now)
    ensures a.name == Trim(input.name) && a.happiness == 0 && !a.isSick
  {
    var kind := ToLower(input.kind);
    AnimalRecord(userId, Trim(input.name), kind, ToLower(input.category),
                 input.quantity.GetOr(1), input.health.GetOr(100),
                 input.lastFed.GetOr(now), input.lastWatered.GetOr(now), input.lastCaredAt.GetOr(now),
                 input.createdAt.GetOr(now), input.value.GetOr(DefaultValue(kind)), 0, false)
  }

  /** A new animal created with the default health and care times reads 100 throughout its
      first day. */
  lemma NewAnimalFullHealth(userId: Id, input: AnimalInput, now: int, later: int)
    requires input.health.None? && input.lastFed.None? && input.lastWatered.None?
    requires now <= later < now + MsPerDay
    ensures CurrentHealth(NewAnimal(userId, input, now), later) == 100
  {
    RecentCareKeepsHealth(NewAnimal(userId, input, now), later);
  }

  /** The pet rule looks at the trimmed name: a pet whose name is only whitespace is refused
      by the pre-save hook, once the schema's validators have passed. */
  lemma WhitespacePetNameRefused(userId: Id, input: AnimalInput, now: int)
    requires ToLower(input.category) == "pet" && SchemaValid(NewAnimal(userId, input, now))
    requires forall k :: 0 <= k < |input.name| ==> IsSpace(input.name[k])
    ensures var a := NewAnimal(userId, input, now);
      SaveEffect(a, Rejected(NameRequired), PetQuantity(a))
  {
    TrimStripsOnlySurroundingSpace(input.name);
    var i :| StrippedAt(input.name, Trim(input.name), i);
    assert Trim(input.name) == [];
  }

  /** A body whose lastFed lies two days ahead is stored as sent, and the decay formula then
      adds health: the new animal reads 110. */
  lemma FutureLastFedInflatesHealth(userId: Id, input: AnimalInput, now: int)
    requires input.health.None? && input.lastFed == Some(now + 2 * MsPerDay) && input.lastWatered.None?
    ensures CurrentHealth(NewAnimal(userId, input, now), now) == 110
  {
    DecayByWholeDays(NewAnimal(userId, input, now), now, -2, 0);
  }

  // ---------------------------------------------------------------------
  // Time

  /** Whole days from `since` to `now`: Math.floor of the elapsed hours over 24. */
  function DaysSince(since: int, now: int): (d: int)
    ensures d * MsPerDay <= now - since < (d + 1) * MsPerDay
  {
    (now - since) / MsPerDay
  }

  /** The floor is the only integer with that bracket. */
  lemma FloorUnique(n: int, d: int, k: int)
    requires d > 0
    requires k * d <= n < (k + 1) * d
    ensures n / d == k
  {
    var q, r := n / d, n % d;
    assert n == q * d + r && 0 <= r < d;
    if q < k {
      MulMonotone(q + 1, k, d);
    } else if q > k {
      MulMonotone(k + 1, q, d);
    }
  }

  lemma MulMonotone(x: int, y: int, d: int)
    requires x <= y && d > 0
    ensures x * d <= y * d
  {
    assert y * d - x * d == (y - x) * d;
  }

  lemma DivMonotone(x: int, y: int, d: int)
    requires x <= y && d > 0
    ensures x / d <= y / d
  {
    var qx, qy := x / d, y / d;
    assert qx * d <= x < (qx + 1) * d;
    assert qy * d <= y < (qy + 1) * d;
    if qy < qx {
      MulMonotone(qy + 1, qx, d);
    }
  }

  /** The ageInDays virtual. */
  function AgeInDays(a: AnimalRecord, now: int): (days: int)
    ensures days * MsPerDay <= now - a.createdAt < (days + 1) * MsPerDay
  {
    DaysSince(a.createdAt, now)
  }

  // ---------------------------------------------------------------------
  // Health decay (calculateCurrentHealth): derived on every read, never stored

  function FeedingDecrease(a: AnimalRecord, now: int): int {
    DaysSince(a.lastFed, now) * 5
  }

  function WateringDecrease(a: AnimalRecord, now: int): int {
    DaysSince(a.lastWatered, now) * 10
  }

  function CurrentHealth(a: AnimalRecord, now: int): (h: int)
    ensures h >= 0
    ensures now >= a.lastFed && now >= a.lastWatered ==> h <= Max(a.health, 0)
  {
    Max(0, a.health - FeedingDecrease(a, now) - WateringDecrease(a, now))
  }

  /** Decay is 5 per whole day unfed plus 10 per whole day unwatered, floored at 0,
      for whatever whole-day counts bracket the elapsed times. */
  lemma DecayByWholeDays(a: AnimalRecord, now: int, daysUnfed: int, daysUnwatered: int)
    requires daysUnfed * MsPerDay <= now - a.lastFed < (daysUnfed + 1) * MsPerDay
    requires daysUnwatered * MsPerDay <= now - a.lastWatered < (daysUnwatered + 1) * MsPerDay
    ensures CurrentHealth(a, now) == Max(0, a.health - 5 * daysUnfed - 10 * daysUnwatered)
  {
    FloorUnique(now - a.lastFed, MsPerDay, daysUnfed);
    FloorUnique(now - a.lastWatered, MsPerDay, daysUnwatered);
  }

  /** Less than a day since both feeding and watering: stored health is returned as is. */
  lemma RecentCareKeepsHealth(a: AnimalRecord, now: int)
    requires a.health >= 0
    requires 0 <= now - a.lastFed < MsPerDay && 0 <= now - a.lastWatered < MsPerDay
    ensures CurrentHealth(a, now) == a.health
  {
    DecayByWholeDays(a, now, 0, 0);
  }

  /** With the care timestamps fixed, current health never rises as time passes. */
  lemma CurrentHealthNonIncreasing(a: AnimalRecord, earlier: int, later: int)
    requires earlier <= later
    ensures CurrentHealth(a, later) <= CurrentHealth(a, earlier)
  {
    DivMonotone(earlier - a.lastFed, later - a.lastFed, MsPerDay);
    DivMonotone(earlier - a.lastWatered, later - a.lastWatered, MsPerDay);
  }

  /** Two full days with neither food nor water take 5*2 + 10*2 = 30 points. */
  lemma TwoDaysWithoutCare(a: AnimalRecord, t0: int)
    requires a.health == 100 && a.lastFed == t0 && a.lastWatered == t0
    ensures CurrentHealth(a, t0 + 48 * MsPerHour) == 70
  {
    DecayByWholeDays(a, t0 + 48 * MsPerHour, 2, 2);
  }

  // ---------------------------------------------------------------------
  // Market value (JavaScript doubles taken as exact reals)

  function HealthFactor(health: int): (f: real)
    ensures 0 <= health <= 100 ==> 0.5 <= f <= 1.0
  {
    0.5 + health as real / 200.0
  }

  /** Piecewise in the age in days, then Math.max(0.7, _). */
  function AgeFactor(days: int): (f: real)
    ensures 0.7 <= f <= 1.2
  {
    var raw :=
      if days < 30 then 0.8 + days as real / 150.0
      else if days < 180 then 1.0 + days as real / 1000.0
      else 1.2 - (days - 180) as real / 1000.0;
    if raw >= 0.7 then raw else 0.7
  }

  /** The marketValue virtual: never below zero for a non-negative base value, whatever the
      clock says, and at most round(value * 1.2) while the derived health is at most 100. */
  function MarketValue(a: AnimalRecord, now: int): (v: int)
    ensures a.value >= 0 ==> v >= 0
    ensures a.value >= 0 && CurrentHealth(a, now) <= 100 ==> v <= Round(a.value as real * 1.2)
  {
    var h, d := CurrentHealth(a, now), AgeInDays(a, now);
    if a.value < 0 then Valuation(a.value, h, d)
    else
      ValuationNonNegative(a.value, h, d);
      if h > 100 then Valuation(a.value, h, d)
      else
        ValuationBounds(a.value, h, d);
        Valuation(a.value, h, d)
  }

  /** value * healthFactor * ageFactor, rounded. */
  function Valuation(value: int, health: int, days: int): int {
    Round(value as real * HealthFactor(health) * AgeFactor(days))
  }

  /** For a health within [0, 100] a valuation lies in [0, round(value * 1.2)]. */
  lemma ValuationBounds(value: int, health: int, days: int)
    requires value >= 0 && 0 <= health <= 100
    ensures 0 <= Valuation(value, health, days) <= Round(value as real * 1.2)
  {
    RoundedProductBounds(value as real, HealthFactor(health), AgeFactor(days));
  }

  /** A non-negative value times a health factor and an age factor, rounded, lies in
      [0, round(value * 1.2)]. */
  lemma RoundedProductBounds(v: real, hf: real, af: real)
    requires v >= 0.0 && 0.5 <= hf <= 1.0 && 0.7 <= af <= 1.2
    ensures 0 <= Round(v * hf * af) <= Round(v * 1.2)
  {
    ProductBounds(v, hf, af);
    RoundBetween(0.0, v * hf * af, v * 1.2);
  }

  /** A non-negative value times a health factor and an age factor lies in [0, value * 1.2]. */
  lemma ProductBounds(v: real, hf: real, af: real)
    requires v >= 0.0 && 0.5 <= hf <= 1.0 && 0.7 <= af <= 1.2
    ensures 0.0 <= v * hf * af <= v * 1.2
  {
    var vh := v * hf;
    ScaleMonotone(0.0, hf, v);
    ScaleMonotone(hf, 1.0, v);
    assert v * 1.0 == v;
    assert 0.0 <= vh <= v;
    ScaleMonotone(0.0, af, vh);
    ScaleMonotone(vh, v, af);
    ScaleMonotone(af, 1.2, v);
    assert vh * af <= v * af <= v * 1.2;
  }

  /** Scaling by a non-negative real keeps order. */
  lemma ScaleMonotone(x: real, y: real, c: real)
    requires x <= y && c >= 0.0
    ensures x * c <= y * c && c * x <= c * y
  {
    assert y * c - x * c == (y - x) * c;
  }

  /** A non-negative value is never valued below zero at any health the decay can reach. */
  lemma ValuationNonNegative(value: int, health: int, days: int)
    requires value >= 0 && health >= 0
    ensures Valuation(value, health, days) >= 0
  {
    var hf := HealthFactor(health);
    assert hf >= 0.5;
    RoundedProductNonNegative(value as real, hf, AgeFactor(days));
  }

  /** A product of non-negative reals rounds to a non-negative integer. */
  lemma RoundedProductNonNegative(v: real, hf: real, af: real)
    requires v >= 0.0 && hf >= 0.0 && af >= 0.0
    ensures Round(v * hf * af) >= 0
  {
    var vh := v * hf;
    ScaleMonotone(0.0, hf, v);
    assert v * 0.0 == 0.0;
    ScaleMonotone(0.0, af, vh);
    assert vh * 0.0 == 0.0;
    RoundMonotone(0.0, vh * af);
  }

  // ---------------------------------------------------------------------
  // Saving a document: validation first, then the pre-save hook

  datatype SaveResult = Saved | Invalid(errors: seq<string>) | Rejected(error: string)

  const NameRequired: string := "Name is required for pets"

  /** A pet's quantity forced to 1 by the pre-save hook. */
  function PetQuantity(a: AnimalRecord): (r: AnimalRecord)
    ensures r.category == "pet" ==> r.quantity == 1
    ensures r == a.(quantity := r.quantity)
    ensures a.category != "pet" ==> r == a
  {
    if a.category == "pet" then a.(quantity := 1) else a
  }

  /** What `save()` does to a document holding `before`: the result and the document afterwards.
      Whatever is saved satisfies the schema and the pet rule; a stored animal saves unchanged. */
  predicate SaveEffect(before: AnimalRecord, r: SaveResult, after: AnimalRecord): (e: bool)
    ensures e && r == Saved ==> Stored(after)
    ensures e && Stored(before) ==> r == Saved && after == before
  {
    if !SchemaValid(before) then
      r == Invalid(SchemaErrors(before)) && after == before
    else
      && after == PetQuantity(before)
      && r == (if before.category == "pet" && before.name == "" then Rejected(NameRequired) else Saved)
  }

  class AnimalDoc {
    var userId: Id
    var name: string
    var kind: string
    var category: string
    var quantity: int
    var health: int
    var lastFed: int
    var lastWatered: int
    var lastCaredAt: int
    var createdAt: int
    var value: int
    var happiness: int
    var isSick: bool

    function Record(): AnimalRecord
      reads this
    {
      AnimalRecord(userId, name, kind, category, quantity, health,
                   lastFed, lastWatered, lastCaredAt, createdAt, value, happiness, isSick)
    }

    /** A document loaded from the collection. */
    constructor (r: AnimalRecord)
      ensures Record() == r
    {
      userId, name, kind, category := r.userId, r.name, r.kind, r.category;
      quantity, health := r.quantity, r.health;
      lastFed, lastWatered, lastCaredAt, createdAt := r.lastFed, r.lastWatered, r.lastCaredAt, r.createdAt;
      value, happiness, isSick := r.value, r.happiness, r.isSick;
    }

    /** The pre-save hook: a pet's quantity becomes 1, and a pet without a name is refused. */
    method PreSave() returns (err: Option<string>)
      modifies this
      ensures Record() == PetQuantity(old(Record()))
      ensures err == (if old(category) == "pet" && old(name) == "" then Some(NameRequired) else None)
    {
      if category == "pet" {
        quantity := 1;
      }
      if category == "pet" && name == "" {
        return Some(NameRequired);
      }
      return None;
    }

    method Save() returns (r: SaveResult)
      modifies this
      ensures SaveEffect(old(Record()), r, Record())
    {
      var errs := SchemaErrors(Record());
      if errs != [] {
        return Invalid(errs);
      }
      var err := PreSave();
      r := if err.Some? then Rejected(err.value) else Saved;
    }

    /** Sets the care fields to those of `r`, a record that differs from the document in no other field. */
    method Care(r: AnimalRecord)
      requires r == Record().(health := r.health, lastFed := r.lastFed, lastWatered := r.lastWatered,
                              lastCaredAt := r.lastCaredAt, happiness := r.happiness, isSick := r.isSick)
      modifies this
      ensures Record() == r
    {
      health, lastFed, lastWatered := r.health, r.lastFed, r.lastWatered;
      lastCaredAt, happiness, isSick := r.lastCaredAt, r.happiness, r.isSick;
    }

    /** feed(): lastFed and lastCaredAt become now, health rises by 10 up to 100, then save. */
    method Feed(now: int) returns (r: SaveResult)
      modifies this
      ensures SaveEffect(old(Record()).(health := Min(100, old(health) + 10), lastFed := now, lastCaredAt := now),
                         r, Record())
    {
      lastFed := now;
      lastCaredAt := now;
      health := Min(100, health + 10);
      r := Save();
    }

    /** water(): lastWatered and lastCaredAt become now, health rises by 15 up to 100, then save. */
    method Water(now: int) returns (r: SaveResult)
      modifies this
      ensures SaveEffect(old(Record()).(health := Min(100, old(health) + 15), lastWatered := now, lastCaredAt := now),
                         r, Record())
    {
      lastWatered := now;
      lastCaredAt := now;
      health := Min(100, health + 15);
      r := Save();
    }

    /** callVet(): health becomes exactly 100 and lastCaredAt now; nothing else changes before saving. */
    method CallVet(now: int) returns (r: SaveResult)
      modifies this
      ensures SaveEffect(old(Record()).(health := 100, lastCaredAt := now), r, Record())
    {
      health := 100;
      lastCaredAt := now;
      r := Save();
    }
  }
}
