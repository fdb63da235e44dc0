/** The ledger page: its filter menu's values mapped to the values the
    listing asks the server for. */
module TransactionsPage {
  import opened Common
  import opened TransactionService
  import TransactionModel
  import TransactionController

  const ApiFilters: seq<string> := ["buy", "sell", "vet", "use", "animal", "inventory", "all"]

  /** getApiFilter: "purchase" becomes "buy", "sale" becomes "sell", the other menu values stand
      for themselves, and any other value becomes "all". */
  function ApiFilter(ui: string): (r: string)
    ensures r in ApiFilters
    ensures ui == "purchase" ==> r == "buy"
    ensures ui == "sale" ==> r == "sell"
    ensures ui in ["vet", "use", "animal", "inventory"] ==> r == ui
    ensures ui !in ["purchase", "sale", "vet", "use", "animal", "inventory"] ==> r == "all"
  {
    match ui
    case "purchase" => "buy"
    case "sale" => "sell"
    case "vet" => "vet"
    case "use" => "use"
    case "animal" => "animal"
    case "inventory" => "inventory"
    case _ => "all"
  }

  /** The page's listing: no limit, and the mapped filter handed to the parameter builder. A
      kind filter becomes `type`, an item-class filter `itemType`, and "all" neither. */
  method ListingParams(ui: string) returns (params: Params)
    ensures params.limit.None?
    ensures ui == "purchase" ==> params.kind == Some("buy") && params.itemType.None?
    ensures ui == "sale" ==> params.kind == Some("sell") && params.itemType.None?
    ensures ui == "vet" || ui == "use" ==> params.kind == Some(ui) && params.itemType.None?
    ensures ui == "animal" || ui == "inventory" ==> params.itemType == Some(ui) && params.kind.None?
    ensures ApiFilter(ui) == "all" ==> params == Params(None, None, None)
  {
    params := BuildParams(None, Some(ApiFilter(ui)));
  }

  /** The listing's parameters travel as `limit`, `type` and `itemType`, while the server filters
      only on `filter`: whatever the menu shows, the server selects every record of the user. */
  lemma MenuFilterIgnoredByServer(p: Params, user: Id, t: TransactionModel.Transaction)
    ensures TransactionController.FilterOf(QueryKeys(p)) == None
    ensures TransactionController.Matches(TransactionController.BuildQuery(user, TransactionController.FilterOf(QueryKeys(p))), t)
            <==> t.userId == user
  {
  }
}
