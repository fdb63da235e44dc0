/** The dashboard card of an animal or item: where a click leads, the health
    colour, and the picture chosen. */
module AssetCard {
  import opened Common
  import opened AnimalModel
  import opened AnimalDetail

  /** The animal types the card knows, lower case. */
  const CardAnimalTypes: seq<string> := ["cat", "chicken", "cow", "dog", "horse", "pig", "sheep"]

  /** The inventory types that have a picture, keyed exactly as stored. */
  const CardInventoryTypes: seq<string> := [
    "dogFood", "catFood", "livestockFeed", "medicine", "vitamins", "water", "treats",
    "premium_feed", "basic_medicine", "advanced_medicine", "feed", "market"]

  datatype Route = MarketPage | AnimalPage(id: Id) | InventoryPage(id: Id)

  /** handleClick: the market tile opens the market; a type that is, up to case, one of the
      card's animal types opens the animal page; anything else, a missing type included, opens the
      inventory page. An absent type is `""`. */
  function ClickRoute(kind: string, id: Id): (r: Route)
    ensures r.MarketPage? <==> kind == "market"
    ensures r.AnimalPage? <==> kind != "market" && kind != "" && ToLower(kind) in CardAnimalTypes
    ensures r.AnimalPage? || r.InventoryPage? ==> r.id == id
  {
    if kind == "market" then MarketPage
    else if kind != "" && ToLower(kind) in CardAnimalTypes then AnimalPage(id)
    else InventoryPage(id)
  }

  /** The card's colour bands: 75 and over green, 50 to 74 yellow, below 50 red. */
  function CardColour(health: int): (c: Colour)
    ensures c == Green <==> health >= 75
    ensures c == Yellow <==> 50 <= health < 75
    ensures c == Red <==> health < 50
  {
    if health >= 75 then Green else if health >= 50 then Yellow else Red
  }

  function Greenness(c: Colour): int {
    match c
    case Green => 2
    case Yellow => 1
    case Red => 0
  }

  /** The card and the animal page colour the same health differently exactly on 40 to 49 and 70
      to 74, and the card is never the greener of the two. */
  lemma ColoursDisagree(health: int)
    ensures CardColour(health) != HealthColour(health) <==> 40 <= health < 50 || 70 <= health < 75
    ensures Greenness(CardColour(health)) <= Greenness(HealthColour(health))
  {
  }

  datatype Image = MarketImage | AnimalImage(kind: string) | InventoryImage(kind: string) | NoImage

  /** getAssetImage: the market picture, then the animal picture for the lower-cased type, then
      the inventory picture for the type as stored, then none. */
  function AssetImage(kind: string): (img: Image)
    ensures img.MarketImage? <==> kind == "market"
    ensures img.AnimalImage? <==> kind != "market" && kind != "" && ToLower(kind) in CardAnimalTypes
    ensures img.AnimalImage? ==> img.kind == ToLower(kind)
    ensures img.InventoryImage? ==> img.kind == kind && kind in CardInventoryTypes
    ensures img.NoImage? <==>
      kind != "market" && (kind == "" || ToLower(kind) !in CardAnimalTypes) && kind !in CardInventoryTypes
  {
    if kind == "market" then MarketImage
    else if kind != "" && ToLower(kind) in CardAnimalTypes then AnimalImage(ToLower(kind))
    else if kind != "" && kind in CardInventoryTypes then InventoryImage(kind)
    else NoImage
  }

  /** A card with a picture of an animal is the one a click takes to the animal page. */
  lemma AnimalImageIffAnimalRoute(kind: string, id: Id)
    ensures AssetImage(kind).AnimalImage? <==> ClickRoute(kind, id).AnimalPage?
  {
  }

  /** "goat" is an animal type the server stores, but not one the card knows: a goat has no
      picture, and a click on it opens the inventory page. */
  lemma GoatIsTreatedAsItem(id: Id)
    ensures "goat" in AnimalTypes
    ensures ClickRoute("goat", id) == InventoryPage(id)
    ensures AssetImage("goat") == NoImage
  {
    assert ToLower("goat") == "goat" by {
      LowerCharwise("goat", "goat");
    }
  }
}
