/** getTransactions: the requester's ledger records, narrowed by an optional
    filter, newest first, optionally limited. */
module TransactionController {
  import opened Common
  import opened TransactionModel
  import opened Database

  /** The query object: the requester, and at most one of a `type` and an `itemType` constraint. */
  datatype TxQuery = TxQuery(userId: Id, kind: Option<string>, itemType: Option<string>)

  datatype TxList = TxList(count: int, data: seq<Transaction>)

  /** The `filter` query parameter, the only one the handler reads besides `limit`. */
  function FilterOf(query: map<string, string>): (f: Option<string>)
    ensures f.Some? <==> "filter" in query
    ensures f.Some? ==> f.value == query["filter"]
  {
    if "filter" in query then Some(query["filter"]) else None
  }

  /** The query built from `filter`: "purchase" and "sale" constrain `type` to that very string,
      "animal" and "inventory" constrain `itemType`, and any other filter, or none, adds nothing. */
  function BuildQuery(user: Id, filter: Option<string>): (q: TxQuery)
    ensures q.userId == user
    ensures q.kind.Some? <==> filter == Some("purchase") || filter == Some("sale")
    ensures q.kind.Some? ==> q.kind == filter
    ensures q.itemType.Some? <==> filter == Some("animal") || filter == Some("inventory")
    ensures q.itemType.Some? ==> q.itemType == filter
    ensures q.kind.None? || q.itemType.None?
  {
    var q := TxQuery(user, None, None);
    var q := if filter == Some("purchase") || filter == Some("sale") then q.(kind := filter) else q;
    if filter == Some("animal") || filter == Some("inventory") then q.(itemType := filter) else q
  }

  /** Whether a record satisfies every constraint of the query. */
  predicate Matches(q: TxQuery, t: Transaction) {
    && t.userId == q.userId
    && (q.kind.Some? ==> t.kind == q.kind.value)
    && (q.itemType.Some? ==> t.itemType == q.itemType.value)
  }

  /** The requester's records matching the query, in ledger order. */
  function Selected(ledger: seq<Transaction>, q: TxQuery): (r: seq<Transaction>)
    ensures forall k :: 0 <= k < |r| ==> r[k] in ledger && Matches(q, r[k])
    ensures forall k :: 0 <= k < |ledger| && Matches(q, ledger[k]) ==> ledger[k] in r
  {
    if ledger == [] then []
    else
      var rest := Selected(ledger[1..], q);
      assert forall k :: 1 <= k < |ledger| ==> ledger[k] == ledger[1..][k - 1];
      if Matches(q, ledger[0]) then [ledger[0]] + rest else rest
  }

  /** The "purchase" and "sale" filters ask for a `type` the schema never stores, so against a
      ledger of schema-valid records they select nothing. */
  lemma PurchaseAndSaleSelectNothing(ledger: seq<Transaction>, user: Id, filter: string)
    requires LedgerValid(ledger)
    requires filter == "purchase" || filter == "sale"
    ensures Selected(ledger, BuildQuery(user, Some(filter))) == []
  {
  }

  /** A filter outside the four recognised ones selects every record of the requester. */
  lemma OtherFiltersSelectAllOfUser(user: Id, filter: Option<string>, t: Transaction)
    requires filter !in {Some("purchase"), Some("sale"), Some("animal"), Some("inventory")}
    ensures Matches(BuildQuery(user, filter), t) <==> t.userId == user
  {
  }

  // ---------------------------------------------------------------------
  // sort({ createdAt: -1 })

  predicate NewestFirst(s: seq<Transaction>) {
    forall i, j :: 0 <= i < j < |s| ==> s[i].createdAt >= s[j].createdAt
  }

  function Insert(t: Transaction, s: seq<Transaction>): seq<Transaction> {
    if s == [] || t.createdAt >= s[0].createdAt then [t] + s
    else [s[0]] + Insert(t, s[1..])
  }

  /** The records by creation time, newest first (records created at the same time keep their
      ledger order). */
  function SortNewestFirst(s: seq<Transaction>): seq<Transaction> {
    if s == [] then [] else Insert(s[0], SortNewestFirst(s[1..]))
  }

  lemma {:induction false} InsertPermutes(t: Transaction, s: seq<Transaction>)
    ensures multiset(Insert(t, s)) == multiset(s) + multiset{t}
  {
    if s != [] && t.createdAt < s[0].createdAt {
      InsertPermutes(t, s[1..]);
      assert s == [s[0]] + s[1..];
    }
  }

  lemma {:induction false} InsertSorted(t: Transaction, s: seq<Transaction>)
    requires NewestFirst(s)
    ensures NewestFirst(Insert(t, s))
  {
    if s != [] && t.createdAt < s[0].createdAt {
      var rest := Insert(t, s[1..]);
      InsertSorted(t, s[1..]);
      assert rest[0] == t || rest[0] == s[1];
      assert forall j :: 0 <= j < |rest| ==> s[0].createdAt >= rest[j].createdAt;
    }
  }

  /** The sort puts the records newest first and neither adds nor drops one. */
  lemma {:induction false} SortNewestFirstSpec(s: seq<Transaction>)
    ensures NewestFirst(SortNewestFirst(s))
    ensures multiset(SortNewestFirst(s)) == multiset(s)
  {
    if s != [] {
      SortNewestFirstSpec(s[1..]);
      InsertSorted(s[0], SortNewestFirst(s[1..]));
      InsertPermutes(s[0], SortNewestFirst(s[1..]));
      assert s == [s[0]] + s[1..];
    }
  }

  // ---------------------------------------------------------------------
  // limit(parseInt(limit))

  /** The limit applied to the sorted records. `limit` is the parsed value when the request
      carries a non-empty one; MongoDB takes a limit of 0 as no limit and a negative one as its
      absolute value. */
  function Take(s: seq<Transaction>, limit: Option<int>): (r: seq<Transaction>)
    ensures |r| <= |s| && r == s[..|r|]
    ensures limit.None? || limit == Some(0) ==> r == s
    ensures limit.Some? && limit.value != 0 ==>
      |r| == Min(if limit.value < 0 then -limit.value else limit.value, |s|)
  {
    match limit
    case None => s
    case Some(n) =>
      var m := if n < 0 then -n else n;
      if n == 0 || m >= |s| then s else s[..m]
  }

  /** Taking a prefix of a newest-first sequence keeps it newest first, and whatever it leaves
      out is no newer than anything it keeps. */
  lemma TakeOfNewestFirst(s: seq<Transaction>, limit: Option<int>)
    requires NewestFirst(s)
    ensures NewestFirst(Take(s, limit))
    ensures forall t :: multiset(Take(s, limit))[t] < multiset(s)[t] ==>
      forall k :: 0 <= k < |Take(s, limit)| ==> Take(s, limit)[k].createdAt >= t.createdAt
  {
    var r := Take(s, limit);
    var rest := s[|r|..];
    assert s == r + rest;
    assert multiset(s) == multiset(r) + multiset(rest);
    forall t | multiset(r)[t] < multiset(s)[t]
      ensures forall k :: 0 <= k < |r| ==> r[k].createdAt >= t.createdAt
    {
      assert t in multiset(rest);
      var j :| 0 <= j < |rest| && rest[j] == t;
      assert s[|r| + j] == t;
    }
  }

  /** getTransactions with the `filter` and `limit` query parameters. */
  function GetTransactions(db: Db, user: Id, filter: Option<string>, limit: Option<int>): (resp: Response<TxList>)
    reads db
    ensures resp.Success? && resp.status == 200 && resp.data.count == |resp.data.data|
    ensures forall k :: 0 <= k < |resp.data.data| ==>
      resp.data.data[k] in db.ledger && Matches(BuildQuery(user, filter), resp.data.data[k])
      && resp.data.data[k].userId == user
    ensures limit.None? || limit == Some(0) ==>
      resp.data.count == |Selected(db.ledger, BuildQuery(user, filter))|
    ensures limit.Some? && limit.value != 0 ==>
      resp.data.count == Min(if limit.value < 0 then -limit.value else limit.value, |Selected(db.ledger, BuildQuery(user, filter))|)
    ensures multiset(resp.data.data) <= multiset(Selected(db.ledger, BuildQuery(user, filter)))
  {
    var selected := Selected(db.ledger, BuildQuery(user, filter));
    var data := Take(SortNewestFirst(selected), limit);
    ListingOfSelected(selected, limit);
    Success(200, TxList(|data|, data))
  }

  /** Sorting and limiting the selected records keeps only selected records, as many as the limit
      allows. */
  lemma ListingOfSelected(selected: seq<Transaction>, limit: Option<int>)
    ensures var data := Take(SortNewestFirst(selected), limit);
      && multiset(data) <= multiset(selected)
      && (forall k :: 0 <= k < |data| ==> data[k] in selected)
      && (limit.None? || limit == Some(0) ==> |data| == |selected|)
      && (limit.Some? && limit.value != 0 ==>
            |data| == Min(if limit.value < 0 then -limit.value else limit.value, |selected|))
  {
    var sorted := SortNewestFirst(selected);
    SortNewestFirstSpec(selected);
    assert |sorted| == |multiset(sorted)| == |multiset(selected)| == |selected|;
    var data := Take(sorted, limit);
    assert sorted == data + sorted[|data|..];
    assert multiset(sorted) == multiset(data) + multiset(sorted[|data|..]);
    assert forall k :: 0 <= k < |data| ==> data[k] in multiset(selected);
  }

  /** The listing is newest first; without a limit it holds every selected record exactly as
      often as the ledger does, and with one, every selected record it leaves out is no newer
      than any it returns. */
  lemma GetTransactionsOrder(db: Db, user: Id, filter: Option<string>, limit: Option<int>)
    ensures NewestFirst(GetTransactions(db, user, filter, limit).data.data)
    ensures limit.None? || limit == Some(0) ==>
      multiset(GetTransactions(db, user, filter, limit).data.data) == multiset(Selected(db.ledger, BuildQuery(user, filter)))
    ensures
      var data, selected := GetTransactions(db, user, filter, limit).data.data, Selected(db.ledger, BuildQuery(user, filter));
      forall t :: multiset(data)[t] < multiset(selected)[t] ==> forall k :: 0 <= k < |data| ==> data[k].createdAt >= t.createdAt
  {
    var selected := Selected(db.ledger, BuildQuery(user, filter));
    SortNewestFirstSpec(selected);
    TakeOfNewestFirst(SortNewestFirst(selected), limit);
  }
}
