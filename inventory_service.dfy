/** The client's type normalisation before a purchase request: a lower-cased
    lookup in an alias table, leaving unknown types as they were typed. */
module InventoryService {
  import opened Common
  import opened InventoryModel

  /** The alias table, keyed by lower-cased type. */
  const TypeMapping: map<string, string> := map[
    "dogfood" := "dogFood",
    "catfood" := "catFood",
    "livestockfeed" := "livestockFeed",
    "water" := "water",
    "medicine" := "medicine",
    "generalmedicine" := "medicine",
    "treats" := "treats",
    "feed" := "feed",
    "premium_feed" := "premium_feed",
    "premiumfeed" := "premium_feed",
    "vitamins" := "vitamins",
    "basic_medicine" := "basic_medicine",
    "basicmedicine" := "basic_medicine",
    "advanced_medicine" := "advanced_medicine",
    "advancedmedicine" := "advanced_medicine"]

  /** Every entry of the table names one of the server's inventory types. */
  lemma MappedValuesAreItemTypes()
    ensures forall k :: k in TypeMapping ==> TypeMapping[k] in ItemTypes
  {
  }

  /** The type sent for `t`: the table's entry for its lower-cased form, or `t` itself. */
  function NormaliseType(t: string): (r: string)
    ensures ToLower(t) in TypeMapping ==> r == TypeMapping[ToLower(t)] && r in ItemTypes
    ensures ToLower(t) !in TypeMapping ==> r == t
  {
    MappedValuesAreItemTypes();
    if t != [] && ToLower(t) in TypeMapping then TypeMapping[ToLower(t)] else t
  }

  /** The four aliases that are not a server type up to case. */
  lemma AliasesNormalise(t: string)
    ensures ToLower(t) == "generalmedicine" ==> NormaliseType(t) == "medicine"
    ensures ToLower(t) == "premiumfeed" ==> NormaliseType(t) == "premium_feed"
    ensures ToLower(t) == "basicmedicine" ==> NormaliseType(t) == "basic_medicine"
    ensures ToLower(t) == "advancedmedicine" ==> NormaliseType(t) == "advanced_medicine"
  {
  }

  /** Normalisation ignores case: two spellings equal up to case normalise alike. */
  lemma NormaliseIgnoresCase(a: string, b: string)
    requires ToLower(a) == ToLower(b) && ToLower(a) in TypeMapping
    ensures NormaliseType(a) == NormaliseType(b)
  {
  }

  /** Each server type, lower-cased, is a key of the table that leads back to it. */
  lemma TableCoversItemTypes()
    ensures forall i :: 0 <= i < |ItemTypes| ==>
      LoweredItemTypes[i] in TypeMapping && TypeMapping[LoweredItemTypes[i]] == ItemTypes[i]
  {
  }

  /** A server type is left as it is. */
  lemma NormaliseKeepsItemTypes(v: string)
    requires v in ItemTypes
    ensures NormaliseType(v) == v
  {
    var i :| 0 <= i < |ItemTypes| && ItemTypes[i] == v;
    LoweredItemTypesAreLowered();
    TableCoversItemTypes();
    assert ToLower(v) == LoweredItemTypes[i];
  }

  /** Normalising twice gives what normalising once gave. */
  lemma NormaliseIdempotent(t: string)
    ensures NormaliseType(NormaliseType(t)) == NormaliseType(t)
  {
    if ToLower(t) in TypeMapping {
      NormaliseKeepsItemTypes(NormaliseType(t));
    }
  }

  /** Where the table holds a server type's own lower-cased form, the client's rewrite is what the
      server's `type` setter would have chosen; a normalised type is left alone by the setter. */
  lemma NormaliseAgreesWithSetter(t: string, i: int)
    requires 0 <= i < |ItemTypes| && ToLower(t) == LoweredItemTypes[i]
    ensures NormaliseType(t) == CanonicalType(t) == ItemTypes[i]
    ensures CanonicalType(NormaliseType(t)) == NormaliseType(t)
  {
    LoweredItemTypesAreLowered();
    TableCoversItemTypes();
    CanonicalTypeIgnoresCase(t, i);
    CanonicalTypeIgnoresCase(ItemTypes[i], i);
  }
}
