# FarmTastic core in Dafny

FarmTastic is a farm game: a user has a coin balance, animals and an inventory of supplies.

## What is modelled

**The Express/Mongoose server:**
- **Schemas** of the four collections (animals, inventory items, users and the transaction ledger). Each has its enums, defaults, setters, validators and pre-save hook.
- **Animal document methods**, all over integer millisecond timestamps:
  - derived health decay;
  - age in days;
  - market value, over exact reals with `Math.round` as ⌊x + ½⌋;
  - `feed`, `water`, `callVet` and the inventory item's `useOn`.
- **Controllers**: animals (list, get, create, feed, water, vet, sell), inventory (list, buy, sell) and the ledger listing.
  - They change a single in-memory store, the class `Database.Db`. It holds balances, two document maps and an append-only ledger.
  - The Mongoose documents `AnimalDoc` and `InventoryDoc` are classes whose methods change their fields in place. The controllers then write them back.
  - Each controller method states its response and every part of the store its `modifies` clause lets it change; the frame keeps the rest.
  - Every method keeps the store's invariant `Database.Db.Valid`: balances are never negative, every stored record satisfies its schema, a user holds at most one item record per type, and every ledger record is schema-valid.
  - The ledger only grows at its end.

**The React client's decision logic:**
- the purchase-type normalisation in `inventoryService`;
- the ledger query parameters and the filter menu;
- ledger labels and signs;
- on the animal page: the food and medicine choice, the health colour, the "time ago" text and the list update after a use;
- on the item page: the sell guard and totals;
- the market's pet prompt, funds guard and request building;
- the registration form's checks;
- the asset card's routing, colour and picture.

Where the client and the server disagree, lemmas state the mismatch:

| Mismatch | Consequence | Lemma |
|---|---|---|
| The registration form accepts six characters; the user schema demands eight. | The form can send an account the server refuses. | `Register.FormWeakerThanSchema` |
| The market checks one unit's price; the server charges the price of the whole pack. | A purchase can pass the page guard and fail the server's funds check. | `Market.GuardWeakerThanServer` |
| The market reads `user` off what the services return, which is the whole JSON body `{ success, data }`; the purchase reply holds the user at `data.user`, one level down, and the create-animal reply holds none. | The page always shows its own fallback, the old balance less one listed price: above the server's balance for a supply pack of several units, and below it for an animal, which the server never charges. | `Market.ShownBalanceIsAlwaysFallback`, `Market.FallbackUndercharges`, `Market.AnimalPurchaseShowsCharge` |
| The item page rounds per unit; the server rounds the total. | 5 units at 13 show 50 and credit 52. | `InventoryDetail.DisplayedTotalDiffersFromCredit`, `InventoryDetail.DisplayedTotalNearCredit` |
| The card colours at 75/50; the animal page at 70/40. | The same health can get two colours. | `AssetCard.ColoursDisagree` |
| The server stores goats; the card does not know them. | A click on a goat opens the inventory page. | `AssetCard.GoatIsTreatedAsItem` |
| The ledger menu sends `type`/`itemType`; the handler reads only `filter`. | The menu never narrows the listing. | `TransactionsPage.MenuFilterIgnoredByServer` |
| The handler's "purchase" and "sale" filters ask for types the ledger schema never stores. | Those filters return nothing. | `TransactionController.PurchaseAndSaleSelectNothing` |

Server edge cases that lemmas exhibit:
- A purchase with a negative quantity passes the funds check, since its cost is negative. It then takes those units out of the record and credits the balance at the full catalogue price; only the ledger write fails (`InventoryController.NegativePurchaseSellsAtFullPrice`).
- A client price for a catalogue type is stored on the new record but never charged (`InventoryController.ClientPriceStoredNotCharged`).
- A `lastFed` in the future, which the create handler takes from the body, raises the derived health above 100 (`AnimalModel.FutureLastFedInflatesHealth`).

Fields the code does not have are not in the model:
- The migration script's `lastHealthUpdate` and `healthHistory` are not in the animal schema, so decay is never settled into the stored health.
- The `marketValue` virtual has no random term.
- Feeding and watering append no ledger record.

## Model

| member | source | states |
|---|---|---|
| AnimalModel.DefaultValue | server/models/animalModel.js:77-95 | the `value` default is positive, and 300 for any type outside the enum |
| AnimalModel.SchemaErrors | server/models/animalModel.js:18-43 | the failing-path list is empty exactly when the type and category enums, quantity >= 1, health in [0, 100] and value >= 0 all hold, and names only those paths |
| AnimalModel.NewAnimal | server/models/animalModel.js:12-95 | a created document keeps its owner, trims the name, lower-cases type and category, starts with happiness 0 and not sick, takes the given quantity, health and value or else 1, 100 and the type's base value, and keeps each given care timestamp and createdAt, stamping the creation time on those left out |
| AnimalModel.NewAnimalFullHealth | server/models/animalModel.js:37-59 | an animal created without a health, lastFed or lastWatered in the body reads 100 for its whole first day |
| AnimalModel.WhitespacePetNameRefused | server/models/animalModel.js:102-115 | the pet rule tests the trimmed name: a pet whose name is only whitespace passes the validators but is refused by the pre-save hook |
| AnimalModel.FutureLastFedInflatesHealth | server/controllers/animalController.js:76-79 | a body with the default health and a lastFed two days ahead of the clock reads 110 at creation: the decay of a negative day count raises the health |
| AnimalModel.DaysSince | server/models/animalModel.js:122-131 | the whole-day count is the unique integer bracketing the elapsed time in days (floor of hours / 24) |
| AnimalModel.AgeInDays | server/models/animalModel.js:173-175 | the age is the number of whole days since creation |
| AnimalModel.CurrentHealth | server/models/animalModel.js:118-140 | derived health is never negative and, with care in the past, never above the stored health |
| AnimalModel.DecayByWholeDays | server/models/animalModel.js:118-140 | derived health is stored health less 5 per whole day unfed and 10 per whole day unwatered, floored at 0 |
| AnimalModel.RecentCareKeepsHealth | server/models/animalModel.js:127-134 | under a day since feeding and watering, derived health is the stored health |
| AnimalModel.CurrentHealthNonIncreasing | server/models/animalModel.js:118-140 | with the care timestamps fixed, derived health never rises as time passes |
| AnimalModel.TwoDaysWithoutCare | server/models/animalModel.js:127-131 | two days with neither food nor water take a healthy animal from 100 to 70 |
| AnimalModel.HealthFactor | server/models/animalModel.js:183 | for a health within [0, 100] the health factor lies within [0.5, 1.0] |
| AnimalModel.AgeFactor | server/models/animalModel.js:186-201 | the age factor always lies within [0.7, 1.2] |
| AnimalModel.ValuationBounds | server/models/animalModel.js:178-207 | base value times the two factors, rounded, lies within [0, round(value * 1.2)] |
| AnimalModel.MarketValue | server/models/animalModel.js:178-207 | an animal with a non-negative base value is never valued below zero, at any time, and while its derived health is at most 100 it is valued at most round(value * 1.2) |
| AnimalModel.ValuationNonNegative | server/models/animalModel.js:178-207 | a non-negative base value at a non-negative health is valued at zero or more, whatever the age |
| AnimalModel.PetQuantity | server/models/animalModel.js:104-107 | the hook sets a pet's quantity to 1 and changes nothing else; non-pets are untouched |
| AnimalModel.SaveEffect | server/models/animalModel.js:102-115 | whatever saves successfully satisfies the schema and the pet rule (quantity 1 and a name), and a stored animal saves unchanged |
| AnimalModel.AnimalDoc.constructor | server/models/animalModel.js:5-100 | a loaded document holds exactly the stored record |
| AnimalModel.AnimalDoc.PreSave | server/models/animalModel.js:103-115 | the document afterwards is the pet-quantity rule applied to it, and the hook refuses exactly a pet without a name |
| AnimalModel.AnimalDoc.Save | server/models/animalModel.js:102-115 | validation runs first and leaves the document unchanged on failure; otherwise the hook's rewrite and verdict decide the result |
| AnimalModel.AnimalDoc.Care | server/models/animalModel.js:143-170 | the document takes the given care fields and keeps every other field |
| AnimalModel.AnimalDoc.Feed | server/models/animalModel.js:143-151 | lastFed and lastCaredAt become now, health rises by 10 capped at 100, then the document is saved |
| AnimalModel.AnimalDoc.Water | server/models/animalModel.js:154-162 | lastWatered and lastCaredAt become now, health rises by 15 capped at 100, then the document is saved |
| AnimalModel.AnimalDoc.CallVet | server/models/animalModel.js:165-170 | health becomes 100 and lastCaredAt now, then the document is saved |
| InventoryModel.FindIgnoringCaseSpec | server/models/inventoryModel.js:44-47 | the setter's search returns an enum value equal to the value up to case, and fails exactly when no enum value matches up to case |
| InventoryModel.FindDependsOnLowerOnly | server/models/inventoryModel.js:44-47 | two values with the same lower-cased form find the same enum value |
| InventoryModel.FindLoweredAgrees | server/models/inventoryModel.js:44-47 | searching the pre-lowered enum table with the lowered value is the setter's search |
| InventoryModel.CanonicalTypeIsSetter | server/models/inventoryModel.js:28-50 | the modelled setter returns the match found, or the value unchanged (`match \|\| value`) |
| InventoryModel.CanonicalTypeSpec | server/models/inventoryModel.js:28-50 | the set type equals the value up to case; it is an enum value exactly when one matches up to case, and otherwise the value as given |
| InventoryModel.ItemTypesDistinctIgnoringCase | server/models/inventoryModel.js:15-27 | no two enum values differ only in case, so a match up to case is unique |
| InventoryModel.CanonicalTypeIgnoresCase | server/models/inventoryModel.js:28-50 | every casing of an enum value is set to that enum value |
| InventoryModel.CanonicalTypeKeepsItemTypes | server/models/inventoryModel.js:28-50 | an enum value is set to itself |
| InventoryModel.CanonicalTypeIdempotent | server/models/inventoryModel.js:28-50 | setting the type twice gives what setting it once gave |
| InventoryModel.DefaultPrice | server/models/inventoryModel.js:69-90 | the price default is positive, and 10 for any type outside the table |
| InventoryModel.DefaultAffects | server/models/inventoryModel.js:111-184 | the affected types are animal types, and the list is non-empty exactly for the enum types |
| InventoryModel.DefaultHealthEffect | server/models/inventoryModel.js:185-204 | the health effect default is never negative, and positive exactly for the enum types |
| InventoryModel.ItemSchemaErrors | server/models/inventoryModel.js:12-90 | the failing-path list is empty exactly when the type and unit enums, a non-empty name, quantity >= 0 and price >= 0 all hold |
| InventoryModel.NewItem | server/models/inventoryModel.js:5-209 | a created item has the type as the setter sets it (an enum value unchanged), the trimmed name, the given quantity, unit and price, and the affected types and health effect of its set type; it validates exactly when the set type is an enum value, the trimmed name is not empty, the unit is an enum value and quantity and price are not negative |
| InventoryModel.UseEffect | server/models/inventoryModel.js:216-263 | one use sets lastCaredAt, changes only the care fields, never lowers health or happiness nor lifts them past 100, feeds for the food types, waters for water, cures for the medicines, leaves health alone for treats and happiness alone except for treats and vitamins |
| InventoryModel.UseBoost | server/models/inventoryModel.js:216-263 | the boost of a use lies within [0, 40] |
| InventoryModel.UseEffectHealth | server/models/inventoryModel.js:216-263 | except for treats, health after one use is the old health plus the type's boost, capped at 100; premium feed gives 25, other food 15, the medicines 40, 30 and 20 |
| InventoryModel.UseEffectKeepsStored | server/models/inventoryModel.js:216-266 | using an item on a stored animal leaves an animal that still validates and saves unchanged |
| InventoryModel.InventoryDoc.constructor | server/models/inventoryModel.js:5-209 | a loaded document holds exactly the stored record |
| InventoryModel.InventoryDoc.UseOn | server/models/inventoryModel.js:212-277 | the item loses one unit whether or not any is left, the animal takes the type's effect and is saved; a failed animal save stops there; then the item is to be deleted at quantity 0 or below and saved (or refused by its validators) otherwise |
| UserModel.UsernameError | server/models/userModel.js:9-16 | the username passes its validators exactly when it has 3 to 20 characters |
| UserModel.PasswordError | server/models/userModel.js:28-32 | the password passes its validators exactly when it has at least 8 characters |
| UserModel.UserErrors | server/models/userModel.js:7-58 | validation reports no error exactly when the username and password pass their validators, the email is present, the balance is not negative and the role is one of the enum values |
| UserModel.CreateUser | server/models/userModel.js:7-58 | a user is created exactly when the trimmed username has 3 to 20 characters, the email is present, the password has 8 or more characters, the balance is not negative and the role is "user" or "admin"; the created user has the trimmed username, the trimmed lower-cased email, the farm name given or derived from the username, 1000 coins and the "user" role by default, and satisfies every declared constraint, its username trimmed |
| UserModel.NewUserDefaults | server/models/userModel.js:33-49 | a user created with only the required values gets the farm "<username>'s Farm", 1000 coins and the "user" role |
| TransactionModel.CreateTransaction | server/models/transactionModel.js:5-50 | a record is created exactly when the lower-cased type and item type are in their enums, the name is present and the quantity (default 1) is at least 1; it then holds the given values with lower-cased enums, a trimmed description and the creation time, and a refusal names at least one path |
| TransactionModel.EnumsAreLowerCase | server/models/transactionModel.js:12-23 | the enum values are already lower case, so the lowercase setters keep them |
| TransactionModel.CreateTransactionAccepts | server/models/transactionModel.js:5-50 | a record with enum values, a name and a quantity of at least 1 is stored exactly as given, description trimmed |
| TransactionModel.CreateTransactionOutcome | server/models/transactionModel.js:37-41 | for enum values and a name, creation succeeds exactly when the quantity is at least 1 |
| TransactionModel.QuantityDefaultsToOne | server/models/transactionModel.js:37-41 | a record created without a quantity records 1 |
| AnimalController.AnimalViewsOf | server/controllers/animalController.js:14-20 | one entry per id, in the order given, each the stored animal with its current health; every given id has an entry |
| AnimalController.GetAnimals | server/controllers/animalController.js:9-34 | the listing answers 200 with its length as count, holds every animal of the requester exactly once in creation order, and nothing else, each with its current health |
| AnimalController.GetAnimal | server/controllers/animalController.js:37-70 | an animal the requester does not own gives 404 "Animal not found"; an owned one is returned with its current health, market value and age in days |
| AnimalController.CreateAnimal | server/controllers/animalController.js:73-101 | a body failing validation gives 400 with the failing paths and stores nothing; a pet without a name gives 500 and stores nothing; otherwise the animal, with the requester as owner and a pet's quantity forced to 1, is stored under a new id and returned with 201 |
| AnimalController.AfterUse | server/models/inventoryModel.js:268-276 | a use leaves nothing of an item holding at most one unit, and otherwise the item one unit lower |
| AnimalController.UsedUp | server/models/inventoryModel.js:268-276 | after a use the record is deleted or written back one unit lower, and no other record changes |
| AnimalController.ApplyUse | server/models/inventoryModel.js:265-276 | the animal is written back, then the item is deleted or saved, and the store stays valid |
| AnimalController.UseDocuments | server/models/inventoryModel.js:212-277 | using a stored item on a stored animal gives the type's effect, which still satisfies the schema; the item is dropped when no unit is left and otherwise comes back one unit lower, still schema-valid, same owner and type |
| AnimalController.UseItem | server/controllers/animalController.js:134-143 | one use of a stored item on a stored animal stores the type's effect on the animal, deletes or lowers the item, and answers 200 with both |
| AnimalController.FeedAnimal | server/controllers/animalController.js:104-151 | a missing animal gives 404 "Animal not found", a missing item of the requester 404 "Inventory item not found", both with nothing changed; otherwise the item is used on the animal, whatever its type, and no ledger record is written |
| AnimalController.WaterAnimal | server/controllers/animalController.js:154-199 | a missing animal gives 404; without a water record holding a unit it gives 400 "Not enough water in inventory" with nothing changed; otherwise one unit of the requester's first water record is used on the animal |
| AnimalController.VetCost | server/controllers/animalController.js:220-232 | the vet cost is positive, and 100 for any type outside the table |
| AnimalController.Label | server/controllers/animalController.js:255 | the ledger names the animal by its name, or by its type when it has none, and that label is never empty for a valid type |
| AnimalController.VetRecord | server/controllers/animalController.js:249-257 | the vet record is the requester's "vet" record for the animal, for the cost and one visit, stamped now; the schema accepts it exactly when the label is not empty |
| AnimalController.CallVet | server/controllers/animalController.js:202-276 | a missing animal gives 404 and a balance below the type's cost gives 400 with the cost in the message, both with nothing changed; otherwise the cost is debited, the animal's health set to 100 and lastCaredAt to now, and exactly one "vet" record for the cost appended |
| AnimalController.LogVet | server/controllers/animalController.js:250-258 | the vet record is appended to the ledger, whatever else is stored, and always accepted |
| AnimalController.ChargeVet | server/controllers/animalController.js:242-268 | after the guards: the balance is set, the animal treated and one "vet" record appended, in that order, and the answer carries the new balance |
| AnimalController.Treat | server/controllers/animalController.js:247 | the vet visit always saves a stored animal, with health 100 and lastCaredAt now and no other change |
| AnimalController.SellAnimal | server/controllers/animalController.js:279-335 | a missing animal gives 404 with nothing changed; otherwise the market value is credited, one "sell" record for that amount and the animal's quantity appended, and the animal deleted |
| AnimalController.AnimalSaleRecord | server/controllers/animalController.js:304-314 | the sale record is the requester's "sell" record for the animal, for the price and the herd size, stamped now; the schema accepts it exactly when the label is not empty and the herd size is at least 1 |
| AnimalController.LogAnimalSale | server/controllers/animalController.js:304-314 | the sale record, carrying the herd size, is appended to the ledger and always accepted |
| AnimalController.CreditSale | server/controllers/animalController.js:300-327 | after the lookups: the balance is set, the record appended and the animal deleted, and the answer carries the price and the new balance |
| Database.Matching | server/controllers/animalController.js:11 | `find` by owner lists exactly the matching records, once each, in increasing id order |
| Database.FirstOfType | server/controllers/animalController.js:170-173 | `findOne` by owner and type finds only a record of that owner and type |
| Database.FirstOfTypeSpec | server/controllers/inventoryController.js:109-112 | the record found is the first of that owner and type in id order, and the search fails only when there is none |
| Database.Db.AnimalOf | server/controllers/animalController.js:39-42 | the lookup by id and owner finds the animal exactly when the requester owns it |
| Database.Db.ItemOf | server/controllers/inventoryController.js:38-41 | the lookup by id and owner finds the item exactly when the requester owns it |
| Database.Db.AnimalsOf | server/controllers/animalController.js:11 | the requester's animals, all of them and only them, in creation order |
| Database.Db.ItemsOf | server/controllers/inventoryController.js:17-19 | the requester's items, all of them and only them, in creation order |
| Database.Db.ItemOfType | server/controllers/inventoryController.js:109-112 | the lookup by owner and type finds only a record of that owner and type |
| Database.Db.SetBalance | server/models/userModel.js:40-44 | saving a balance below 0 is refused and writes nothing; any other balance is written for that user only |
| Database.Db.InsertAnimal | server/controllers/animalController.js:79 | a created animal is stored under the next id, and nothing else changes |
| Database.Db.UpdateAnimal | server/models/inventoryModel.js:266 | saving an animal replaces only its own record |
| Database.Db.DeleteAnimal | server/controllers/animalController.js:317 | deleting an animal removes only its own record |
| Database.Db.UpdateItem | server/models/inventoryModel.js:274 | saving an item replaces only its own record and keeps one record per owner and type |
| Database.Db.InsertItem | server/controllers/inventoryController.js:120-127 | a created item of a type its owner does not hold is stored under the next id |
| Database.Db.DeleteItem | server/models/inventoryModel.js:270 | deleting an item removes only its own record |
| Database.Db.DeleteEmptyItems | server/controllers/inventoryController.js:11-14 | exactly the requester's records with quantity 0 or below are removed |
| Database.Db.Create | server/models/transactionModel.js:37-45 | a ledger record with valid enums and a name is appended, trimmed and stamped, exactly when its quantity (default 1) is at least 1, and the ledger is otherwise unchanged |
| Database.Db.Append | server/models/transactionModel.js:5-50 | an accepted record is appended at the end of the ledger and nothing before it changes |
| InventoryController.ViewsOf | server/controllers/inventoryController.js:17-25 | the listing has one entry per id, in the order given, each with its stored record; every given id has an entry |
| InventoryController.ItemListOf | server/controllers/inventoryController.js:17-26 | the find answers 200 with its length as count, and lists every record of the requester once, in creation order, and no other record |
| InventoryController.GetInventory | server/controllers/inventoryController.js:8-33 | exactly the requester's records with quantity 0 or below are deleted and no other record changes; the answer is the listing of what remains, so every record it lists has a positive quantity |
| InventoryController.GetInventoryItem | server/controllers/inventoryController.js:36-61 | an item the requester does not own gives 404 "Inventory item not found"; an owned one is returned with 200 |
| InventoryController.Catalogue | server/controllers/inventoryController.js:69-85 | the catalogue knows exactly the enum types, at the schema's default price, with a valid unit and a name |
| InventoryController.OrOne | server/controllers/inventoryController.js:95 | `quantity \|\| 1` is never 0 and keeps any non-zero quantity |
| InventoryController.TotalCost | server/controllers/inventoryController.js:88-95 | the charge is the catalogue price per unit for a catalogue type, and the client's price (10 when absent) per unit for any other type |
| InventoryController.CatalogueCostIgnoresClientPrice | server/controllers/inventoryController.js:88-95 | for a catalogue type the price in the request does not change the charge |
| InventoryController.MiscasedTypeChargesClientPrice | server/controllers/inventoryController.js:88-122 | a catalogue type sent in another casing misses the catalogue, so the client's price is charged, while the record is still stored under the catalogue type |
| InventoryController.MiscasedDogFood | server/controllers/inventoryController.js:88-95 | one unit of "DogFood" at a client price of 1 costs 1, while "dogFood" costs 20 |
| InventoryController.NewStock | server/controllers/inventoryController.js:119-127 | the record created for a purchase belongs to the requester, has the type as the setter sets it and `quantity \|\| 1` units, the trimmed name sent or else the catalogue's (or the type), the unit sent or else the catalogue's, and the price sent when non-zero, else the type's default price (10 outside the catalogue) |
| InventoryController.ClientPriceStoredNotCharged | server/controllers/inventoryController.js:87-127 | for a catalogue type a non-zero client price is stored on the new record, while the charge is what a request without a price pays and that request stores the catalogue price |
| InventoryController.Grown | server/controllers/inventoryController.js:116 | growing a record changes its quantity by the amount bought and nothing else |
| InventoryController.GrowStock | server/controllers/inventoryController.js:114-117 | the grown record is written exactly when it validates |
| InventoryController.AddStock | server/controllers/inventoryController.js:118-128 | the new record is stored under the next id exactly when it validates |
| InventoryController.Restock | server/controllers/inventoryController.js:108-128 | the stock write is `Restocked` of the store before the call: the new items, next id, id and validation outcome |
| InventoryController.GrowWrite | server/controllers/inventoryController.js:114-117 | growing the record `id` writes it grown by the quantity exactly when the grown record validates, and otherwise changes nothing; no other record changes |
| InventoryController.CreateWrite | server/controllers/inventoryController.js:118-127 | creating a record stores it under the next id and advances the id exactly when it validates, and otherwise changes nothing; no other record changes |
| InventoryController.Restocked | server/controllers/inventoryController.js:108-128 | the stock write grows the requester's first record of the set type when there is one and creates a record otherwise; a write that fails to validate changes nothing, a successful one leaves a record of the requester and the set type under the id, and no other record changes |
| InventoryController.RestockedHolding | server/controllers/inventoryController.js:108-128 | the write lands on an existing record exactly when the requester holds the type; on success the record holds what was held before (nothing for a new record) plus `quantity \|\| 1`, and the key set gains at most the new id |
| InventoryController.NegativePurchaseSellsAtFullPrice | server/controllers/inventoryController.js:93-117 | a negative catalogue quantity against a record holding at least as many units costs minus the catalogue price of those units, passes the funds check at any balance of zero or more, writes the record that many units lower, and gets a quantity below 1 for the ledger |
| InventoryController.NegativeCost | server/controllers/inventoryController.js:93 | a negative catalogue quantity has a negative cost, the catalogue price times the units taken, negated |
| InventoryController.BuyInventory | server/controllers/inventoryController.js:64-164 | without a user document it gives 500, and with a balance below the charge 400 with the charge in the message, both with nothing changed; otherwise the items and the next id are the stock write `Restocked` of the old store, the charge is debited exactly when that write validated (a credit for a negative quantity), the answer succeeds exactly when the write validated and `quantity \|\| 1` is at least 1, and then carries the write's id and record and the new balance with one "buy" record appended; on any failure the ledger is unchanged |
| InventoryController.BuyStock | server/controllers/inventoryController.js:108-156 | the items and next id become the stock write `Restocked` of the old store; the charge is debited exactly when that write validated; the answer succeeds exactly when the quantity is at least 1 and then carries the written id and record and the new balance, with one "buy" record appended |
| InventoryController.Charge | server/controllers/inventoryController.js:130-156 | the balance is set and, for a quantity of at least 1, one "buy" record for the cost appended and 200 returned; a smaller quantity gives 500 with no record |
| InventoryController.LogTrade | server/controllers/inventoryController.js:135-146 | a trade record is appended exactly when its quantity is at least 1, with the description the controller builds |
| InventoryController.BuyRecord | server/controllers/inventoryController.js:135-146 | the purchase record is the requester's "buy" record for the item, for the charge and the units bought, stamped now; the schema accepts it exactly when the item's name is not empty and at least one unit was bought |
| InventoryController.SaleRecord | server/controllers/inventoryController.js:213-222 | the sale record is the requester's "sell" record for the item, for the credit and the units sold, stamped now; the schema accepts it exactly when the item's name is not empty and at least one unit was sold |
| InventoryController.SellPrice | server/controllers/inventoryController.js:193 | for a non-negative price and quantity the credit for a sale is never negative and never more than price times quantity |
| InventoryController.SellInventory | server/controllers/inventoryController.js:167-241 | an item the requester does not own gives 404, and asking for more than is held 400 with the stock in the message, both with nothing changed; otherwise 80% of price times quantity, rounded, is credited, the record lowered (deleted at exactly 0) and one "sell" record appended; a quantity below 1 passes both guards, writes the stock and balance, and ends in 500 |
| InventoryController.Lowered | server/controllers/inventoryController.js:202-210 | selling deletes the record exactly when nothing is left, lowers it otherwise, and leaves every other record alone |
| InventoryController.LowerStock | server/controllers/inventoryController.js:202-210 | the stock write is the lowered inventory |
| InventoryController.Destock | server/controllers/inventoryController.js:202-233 | the stock is lowered, then for a quantity of at least 1 one "sell" record appended and 200 returned with what is left; a smaller quantity gives 500 |
| TransactionController.FilterOf | server/controllers/transactionController.js:6 | the handler's filter is the `filter` query key when present, and absent otherwise |
| TransactionController.BuildQuery | server/controllers/transactionController.js:9-18 | the query always names the requester; "purchase" and "sale" constrain the record type to that string, "animal" and "inventory" the item type, and any other filter adds nothing; never both |
| TransactionController.Selected | server/controllers/transactionController.js:21 | `find(query)` returns ledger records that match the query, and every matching record |
| TransactionController.PurchaseAndSaleSelectNothing | server/controllers/transactionController.js:12-14 | "purchase" and "sale" ask for a record type the schema never stores, so against a valid ledger they select nothing |
| TransactionController.OtherFiltersSelectAllOfUser | server/controllers/transactionController.js:9-18 | any filter other than the four recognised ones selects exactly the requester's records |
| TransactionController.InsertPermutes | server/controllers/transactionController.js:21 | inserting a record into the sorted listing adds exactly that record |
| TransactionController.InsertSorted | server/controllers/transactionController.js:21 | inserting into a newest-first listing keeps it newest first |
| TransactionController.SortNewestFirstSpec | server/controllers/transactionController.js:21 | the sort orders records newest first and is a permutation of its input |
| TransactionController.Take | server/controllers/transactionController.js:24-26 | the limit keeps a prefix; no limit or a limit of 0 keeps everything, and any other limit keeps the smaller of its absolute value and the number of records |
| TransactionController.TakeOfNewestFirst | server/controllers/transactionController.js:21-26 | a limited newest-first listing is newest first, and whatever it leaves out is no newer than anything it keeps |
| TransactionController.GetTransactions | server/controllers/transactionController.js:4-35 | the answer is 200 with its length as count: every selected record without a limit or with a limit of 0, otherwise the smaller of the limit's absolute value and the number selected; it holds selected records only, each no more often than the selection holds it |
| TransactionController.ListingOfSelected | server/controllers/transactionController.js:21-26 | the sorted, limited listing is a sub-multiset of the selection, so every entry is a selected record, and has the count the limit gives |
| TransactionController.GetTransactionsOrder | server/controllers/transactionController.js:21-29 | the listing is newest first; without a limit it holds every selected record as often as the ledger does; with one, what it leaves out is no newer than what it returns |
| TransactionService.BuildParams | src/services/transactionService.js:4-27 | `limit` is sent only when truthy; a ledger kind is sent as `type`, an item class as `itemType`, and nothing for a missing, "all" or other filter; never both |
| TransactionService.QueryKeys | src/services/transactionService.js:30 | the query string carries exactly the keys of the parameters that are set, and only `limit`, `type` and `itemType` |
| TransactionsPage.ApiFilter | src/pages/Transactions/Transactions.jsx:12-29 | "purchase" maps to "buy" and "sale" to "sell", the other four menu values to themselves, and anything else to "all" |
| TransactionsPage.ListingParams | src/pages/Transactions/Transactions.jsx:63 | the page's listing asks with no limit; a purchase or sale menu choice is sent as `type` "buy" or "sell", vet and use as themselves, an item class as `itemType`, and "all" as no parameter |
| TransactionsPage.MenuFilterIgnoredByServer | server/controllers/transactionController.js:6-18 | the client's `type` and `itemType` keys never include `filter`, so the server selects every record of the user whatever the menu shows |
| TransactionList.TypeLabel | src/components/TransactionList/TransactionList.jsx:50-60 | an empty type reads "Unknown", the four ledger kinds read "Purchase", "Sale", "Vet Visit" and "Used Item", and any other type has its first letter upper-cased |
| TransactionList.StoredRecordsHaveKnownLabels | src/components/TransactionList/TransactionList.jsx:50-60 | every stored record shows one of the four labels, a different one for each kind |
| TransactionList.SignsOfControllerRecords | src/components/TransactionList/TransactionList.jsx:63-65 | the minus sign marks exactly the kinds written after a debit (vet, buy); the sale records, written after a credit, carry a plus |
| AnimalDetail.ValidFood | src/pages/AnimalDetail/AnimalDetail.jsx:83-94 | dogs get dogFood and the three shared foods, cats catFood and the same three, the five livestock types livestockFeed, feed and premium_feed, and any other type (looked up lower-cased) nothing; every listed food is a server inventory type |
| AnimalDetail.FoodItems | src/pages/AnimalDetail/AnimalDetail.jsx:80-98 | without an animal no food is offered; otherwise exactly the inventory entries of an allowed type with quantity above zero, and nothing else |
| AnimalDetail.FoodItemsKeepOrder | src/pages/AnimalDetail/AnimalDetail.jsx:96-98 | the offer keeps list order: the offer from two lists end to end is the two offers end to end |
| AnimalDetail.UnlistedAnimalsGetNoFood | src/pages/AnimalDetail/AnimalDetail.jsx:83-94 | a type the food map lacks (a goat, say), in any casing, is offered no food whatever the inventory holds |
| AnimalDetail.TreatsOnlyForPets | src/pages/AnimalDetail/AnimalDetail.jsx:83-94 | treats are offered only to dogs and cats |
| AnimalDetail.MedicineItems | src/pages/AnimalDetail/AnimalDetail.jsx:102-111 | exactly the medicine, basic_medicine and advanced_medicine entries with quantity above zero are offered |
| AnimalDetail.OfferedMedicineHeals | src/pages/AnimalDetail/AnimalDetail.jsx:102-111 | every offered medicine is one the server's useOn treats as a medicine |
| AnimalDetail.HealthColour | src/pages/AnimalDetail/AnimalDetail.jsx:496-500 | this page colours health green exactly from 70, yellow exactly from 40 below 70, red exactly below 40 |
| AnimalDetail.DaysFromHours | src/pages/AnimalDetail/AnimalDetail.jsx:507-520 | whole days computed from whole hours equal whole days of the elapsed milliseconds |
| AnimalDetail.ElapsedSince | src/pages/AnimalDetail/AnimalDetail.jsx:503-521 | no timestamp gives "never"; under an hour gives whole minutes; under a day gives 1 to 23 whole hours bracketing the elapsed time; otherwise at least one whole day |
| AnimalDetail.TimeSince | src/pages/AnimalDetail/AnimalDetail.jsx:503-521 | the text is "Never" exactly when there is no timestamp; otherwise it counts whole minutes under an hour, whole hours under a day, and whole days from a day on, each as "<n> <unit>[s] ago" |
| AnimalDetail.PhrasePlural | src/pages/AnimalDetail/AnimalDetail.jsx:511-520 | the phrase ends in " ago" and its unit is plural exactly when the count is not 1 |
| AnimalDetail.Replace | src/pages/AnimalDetail/AnimalDetail.jsx:145-155 | the map step keeps every other entry, replaces the used one by the returned record, or leaves a hole when none came back |
| AnimalDetail.PresentOfFull | src/pages/AnimalDetail/AnimalDetail.jsx:156 | dropping holes from a list without holes changes nothing |
| AnimalDetail.PresentOfHoles | src/pages/AnimalDetail/AnimalDetail.jsx:145-156 | without a returned record, the map and hole-dropping step is the list without the used entry |
| AnimalDetail.AfterUseListSpec | src/pages/AnimalDetail/AnimalDetail.jsx:145-157 | with a returned record the used entry is replaced in place and nothing else changes; without one it is dropped and the others keep their order |
| AnimalDetail.FilterOfViews | src/pages/AnimalDetail/AnimalDetail.jsx:145-157 | dropping the used entry from the page's views is the views of the remaining records |
| AnimalDetail.ListFollowsServer | src/pages/AnimalDetail/AnimalDetail.jsx:145-157 | a list that mirrors the server's records still mirrors them after a use, both when the server saves the decremented record and when it deletes it |
| AnimalDetail.HandleFeed | src/pages/AnimalDetail/AnimalDetail.jsx:114-130 | no suitable food gives the message and no request; exactly one feeds with it at once; two or more open the selector with exactly those options |
| AnimalDetail.FedItemSuits | src/pages/AnimalDetail/AnimalDetail.jsx:123-125 | the entry fed at once is in the inventory list, suits the animal and has stock |
| AnimalDetail.FirstWater | src/pages/AnimalDetail/AnimalDetail.jsx:176 | the position found holds a "water" entry and no earlier entry is water; none is found exactly when the list has no water entry |
| AnimalDetail.HandleWater | src/pages/AnimalDetail/AnimalDetail.jsx:174-191 | a request is sent exactly when the first water entry exists and holds more than 0 units, and it names that entry; otherwise the page shows its message and sends nothing |
| AnimalDetail.PageWaterMatchesServer | src/pages/AnimalDetail/AnimalDetail.jsx:174-191 | when the page lists the server's records of the user, the button sends a request exactly when the server's water handler (server/controllers/animalController.js:170-180) passes its 400 check, and the entry it names is the record the server uses |
| AnimalDetail.WaterOfListing | src/pages/AnimalDetail/AnimalDetail.jsx:174-191 | the same agreement for any list of all the user's ids in creation order |
| InventoryDetail.SellInput | src/pages/InventoryDetail/InventoryDetail.jsx:345 | the typed sell quantity is the parsed number, or 1 when it does not parse or parses to 0; never 0 |
| InventoryDetail.InitialSellQuantity | src/pages/InventoryDetail/InventoryDetail.jsx:66 | the sell quantity set on load is at most 1 and at most the stock, and is one of the two |
| InventoryDetail.SellGuard | src/pages/InventoryDetail/InventoryDetail.jsx:113-124 | a quantity of 0 or below, or above the stock, is refused before any request, and exactly those are; any other is sent as typed |
| InventoryDetail.InitialQuantitySellsOnlyWithStock | src/pages/InventoryDetail/InventoryDetail.jsx:66 | right after loading, a sell goes through exactly when at least one unit is held |
| InventoryDetail.GuardedSellPassesServerCheck | src/pages/InventoryDetail/InventoryDetail.jsx:113-124 | a quantity the page lets through is positive and within the stock, so the server's stock check accepts it and the credit is not negative |
| InventoryDetail.UnitSellValue | src/pages/InventoryDetail/InventoryDetail.jsx:223 | the unit sale value shown for a non-negative price lies within [0, price] |
| InventoryDetail.DisplayedTotal | src/pages/InventoryDetail/InventoryDetail.jsx:223 | the sell total shown for a non-negative price and quantity lies within [0, price times quantity] |
| InventoryDetail.DisplayedTotalOfOneIsCredit | src/pages/InventoryDetail/InventoryDetail.jsx:223 | for one unit the sell button shows what the server credits |
| InventoryDetail.DisplayedTotalDiffersFromCredit | src/pages/InventoryDetail/InventoryDetail.jsx:223 | the sell button rounds per unit and the server rounds the total: 5 units at price 13 show 50 while the server credits 52 |
| InventoryDetail.RoundFourFifths | src/pages/InventoryDetail/InventoryDetail.jsx:223 | Math.round of four fifths of an integer price is the integer quotient (8n + 5) / 10 |
| InventoryDetail.DisplayedTotalNearCredit | src/pages/InventoryDetail/InventoryDetail.jsx:223 | the shown sell total is always within (quantity + 1) / 2 of the server's credit, in both directions |
| InventoryDetail.BuyEnabledMatchesServerGuard | src/pages/InventoryDetail/InventoryDetail.jsx:326-331 | for an item at its catalogue price, the buy button is enabled exactly when the server's funds check would accept the type-and-quantity request the page sends |
| InventoryDetail.EnabledSellPassesGuard | src/pages/InventoryDetail/InventoryDetail.jsx:113-124 | with no action running, the sell button is enabled for a quantity of at least 1 exactly when the guard sends that quantity as typed |
| Market.PurchaseClick | src/pages/Market/Market.jsx:217-230 | the name prompt opens exactly for cat, dog and horse, in any casing, in the animals tab, with that animal; anything else is bought at once |
| Market.NameSubmit | src/pages/Market/Market.jsx:232-240 | the purchase goes ahead exactly when the name is not blank, with the name as typed |
| Market.CategoryOf | src/pages/Market/Market.jsx:264-265 | the category is always one the animal schema accepts, and is "pet" exactly for cat, dog and horse |
| Market.HandlePurchase | src/pages/Market/Market.jsx:244-283 | a balance below the listed price yields the "Not enough coins" message and no request, exactly as the disabled buy button does; otherwise the animals tab creates an animal of that type, name and category, and the other tabs buy the listing with quantity `\|\| 1` and unit "units" |
| Market.BalanceAfter | src/pages/Market/Market.jsx:286-292 | the balance shown afterwards is the reply's top-level `user` balance when there is one, and otherwise the old balance less the listed price |
| Market.BuyReply | server/controllers/inventoryController.js:148-155 | the buy reply, as the service hands it to the page, carries the new balance only under `data.user`, never at the top level |
| Market.ShownBalanceIsAlwaysFallback | src/pages/Market/Market.jsx:286-292 | after a supply or an animal purchase the page shows the old balance less the listed price, and a server balance other than that is not what it shows |
| Market.GuardWeakerThanServer | src/pages/Market/Market.jsx:124-213 | for each supply listing in the page's catalogue, a balance covering one unit but not the pack passes the page guard and then fails the server's funds check |
| Market.FallbackUndercharges | src/pages/Market/Market.jsx:286-292 | after a supply purchase the shown balance exceeds the server's by the price of every unit after the first |
| Market.AnimalPurchaseShowsCharge | src/pages/Market/Market.jsx:244-292 | an affordable animal at a positive price is requested as a create-animal request, and the page then shows a balance below the old one, though the server charges nothing |
| Register.HandleSubmit | src/pages/Register/Register.jsx:27-52 | an empty field, then mismatched passwords, then a password under 6 characters each stop the form with its own message, in that order and only then; otherwise the three values are sent as typed |
| Register.FormWeakerThanSchema | src/pages/Register/Register.jsx:39-43 | a 6- or 7-character password passes the form but fails the user schema's 8-character minimum, so the account is refused |
| Register.SentValuesAreFilled | src/pages/Register/Register.jsx:27-52 | whatever the form sends has a non-empty username and email and a password of at least 6 characters |
| AssetCard.ClickRoute | src/components/AssetCard/AssetCard.jsx:58-71 | "market" opens the market; one of the seven card animal types, in any casing, opens the animal page; anything else, a missing type included, opens the inventory page; both pages get the asset's id |
| AssetCard.CardColour | src/components/AssetCard/AssetCard.jsx:77-81 | the card is green exactly from 75, yellow exactly from 50 below 75, red exactly below 50 |
| AssetCard.ColoursDisagree | src/components/AssetCard/AssetCard.jsx:77-81 | the card and the animal page colour a health differently exactly on 40-49 and 70-74, and the card is never the greener |
| AssetCard.AssetImage | src/components/AssetCard/AssetCard.jsx:84-92 | the market picture for "market"; otherwise the animal picture for a card animal type, lower-cased; otherwise the inventory picture for a type in its table, as stored; otherwise none, exactly when no earlier case applies |
| AssetCard.AnimalImageIffAnimalRoute | src/components/AssetCard/AssetCard.jsx:58-92 | a card shows an animal picture exactly when a click opens the animal page |
| AssetCard.GoatIsTreatedAsItem | src/components/AssetCard/AssetCard.jsx:58-92 | a goat is a stored animal type, but has no card picture and a click opens the inventory page |
| InventoryService.MappedValuesAreItemTypes | src/services/inventoryService.js:31-47 | every value in the alias table is a server inventory type |
| InventoryService.NormaliseType | src/services/inventoryService.js:31-52 | a type whose lower-cased form is in the table is sent as the table's value, a server type; any other type is sent as typed |
| InventoryService.AliasesNormalise | src/services/inventoryService.js:31-47 | the four aliases generalmedicine, premiumfeed, basicmedicine and advancedmedicine, in any casing, map to their server types |
| InventoryService.NormaliseIgnoresCase | src/services/inventoryService.js:50-52 | two spellings equal up to case that the table knows are sent alike |
| InventoryService.TableCoversItemTypes | src/services/inventoryService.js:31-47 | every server inventory type, lower-cased, is a key leading back to that type |
| InventoryService.NormaliseKeepsItemTypes | src/services/inventoryService.js:50-52 | a server type is sent unchanged |
| InventoryService.NormaliseIdempotent | src/services/inventoryService.js:50-52 | normalising twice gives what normalising once gave |
| InventoryService.NormaliseAgreesWithSetter | src/services/inventoryService.js:50-52 | for a server type in any casing, the client's rewrite is what the server's type setter stores, and the setter leaves a rewritten type alone |
| Common.ToLower | src/pages/Market/Market.jsx:221 | lower-casing keeps the length and lowers each ASCII capital, position by position |
| Common.ToLowerIdempotent | server/models/inventoryModel.js:46 | lower-casing twice is lower-casing once |
| Common.Trim | src/pages/Market/Market.jsx:233 | the trimmed string is no longer than the original and neither starts nor ends with whitespace |
| Common.TrimStripsOnlySurroundingSpace | src/pages/Market/Market.jsx:233 | trimming removes only the surrounding whitespace: the result is a slice of the original with only whitespace before and after it |
| Common.Round | server/models/animalModel.js:204 | Math.round gives the integer in (x - 1/2, x + 1/2]: at most half a unit above its argument and less than half a unit below it |
| Common.RoundMonotone | server/models/animalModel.js:204 | rounding preserves order |

## Left out

**Infrastructure:**
- Persistence: the MongoDB driver, connections and query execution are replaced by the in-memory `Database.Db`.
  - `find` returns documents in id order, which the model takes to be creation order.
  - Unique indexes on username and email are not modelled.
- Authentication is left out: JWT handling, the auth middleware, bcrypt hashing in the user pre-save hook, the token methods, `lastLogin`, and the client's auth context and protected routes. The requesting user is a parameter.
- Rate limiting and the Express route tables are configuration. The migration script is a database loop over fields the schema does not declare.
- Concurrency is not modelled: each request runs alone. The read-modify-write races and the credit-then-delete order of a sale are not studied beyond the order the methods perform them in.
- The clock is a `now` parameter in milliseconds: `new Date()` and `Date.now()` are not read.

**Values:**
- Numbers are unbounded integers, and the real product in the valuation is exact. Non-integer quantities and prices, IEEE rounding artefacts, `NaN` from `parseInt` and JavaScript type coercion are not modelled.
- Strings: case mapping and trimming cover ASCII only.
- The email format regex and the image URL defaults are not modelled. Validation messages are reduced to the names of the failing paths; a server error is reported as "Server error".
- `happiness` and `isSick`, which `useOn` writes but the animal schema does not declare, are plain fields starting at 0 and false.

**Lookups:**
- Object-key lookups with prototype names such as `constructor` are not modelled.
- Inventory lookups assume the query goes through the schema's type setter, as Mongoose casts query filters.

**Client behaviour:**
- Client rendering, effects and navigation are boundaries: JSX, `setTimeout`, `useEffect` fetches, the refresh context and the loading, error and missing-data checks of the pages. A navigation is modelled as the route chosen.
- The client's `foodId` against the server's `inventoryId`: feeding is modelled on the server's `inventoryId`.
- The animal page's medicine, treats and vitamins handlers are left out: they call routes the server does not define. The water handler's guard is `AnimalDetail.HandleWater`; its list update after the reply is the same as the feed handler's, `AnimalDetail.AfterUseList`. The `waterId` it sends is not read by the server, which picks its own first water record.
- The market sends an animal's price, which the create-animal handler ignores, so the model does not carry it.
- The asset card's test for a health bar (`asset.health !== undefined`) is rendering and is not modelled; the colour it shows is `AssetCard.CardColour`.
- The item page's `getTimeSinceLastPurchase` is the same function as the animal page's formatter, so it is modelled once, as `AnimalDetail.TimeSince`.
- `InventoryService.NormaliseType`: the service rewrites the request object's `type` in place; the model returns the rewritten type as a value.

**Ordering:**
- `TransactionController.GetTransactions`: ties in `createdAt` keep ledger order in the model. MongoDB does not promise an order among equal keys.
