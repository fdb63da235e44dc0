/** The client's request parameters for the ledger listing. */
module TransactionService {
  import opened Common

  /** The query parameters the client sends; each is absent unless set. */
  datatype Params = Params(limit: Option<int>, kind: Option<string>, itemType: Option<string>)

  const KindFilters: seq<string> := ["buy", "sell", "vet", "use"]
  const ItemTypeFilters: seq<string> := ["animal", "inventory"]

  /** getTransactions(limit, filter): `limit` only when truthy (present and non-zero); a ledger
      kind as `type`, an item class as `itemType`, and nothing for a missing, empty or "all"
      filter or any other value. */
  method BuildParams(limit: Option<int>, filter: Option<string>) returns (params: Params)
    ensures params.limit == (if limit.Some? && limit.value != 0 then limit else None)
    ensures params.kind.Some? <==> filter.Some? && filter.value in KindFilters
    ensures params.kind.Some? ==> params.kind == filter
    ensures params.itemType.Some? <==> filter.Some? && filter.value in ItemTypeFilters
    ensures params.itemType.Some? ==> params.itemType == filter
    ensures params.kind.None? || params.itemType.None?
  {
    params := Params(None, None, None);
    if limit.Some? && limit.value != 0 {
      params := params.(limit := limit);
    }
    if filter.Some? && filter.value != "" && filter.value != "all" {
      var f := filter.value;
      if f == "buy" || f == "sell" || f == "vet" || f == "use" {
        params := params.(kind := filter);
      } else if f == "animal" || f == "inventory" {
        params := params.(itemType := filter);
      }
    }
  }

  /** The query string the parameters are sent as: one key per parameter that is set. */
  function QueryKeys(p: Params): (q: map<string, string>)
    ensures "limit" in q <==> p.limit.Some?
    ensures "type" in q <==> p.kind.Some?
    ensures "itemType" in q <==> p.itemType.Some?
    ensures p.kind.Some? ==> q["type"] == p.kind.value
    ensures p.itemType.Some? ==> q["itemType"] == p.itemType.value
    ensures q.Keys <= {"limit", "type", "itemType"}
  {
    var q: map<string, string> := map[];
    var q := if p.limit.Some? then q["limit" := IntToString(p.limit.value)] else q;
    var q := if p.kind.Some? then q["type" := p.kind.value] else q;
    if p.itemType.Some? then q["itemType" := p.itemType.value] else q
  }
}
