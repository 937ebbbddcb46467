// Listing, paging and statistics over the transaction records the wallet writes.
module TransactionHistory {
  import opened Wrappers
  import opened Currencies
  import opened WalletLedger
  import opened LockMachine
  import opened Serializability

  // ---------- Filtering ----------

  datatype Clause = UserIs(user: UserId) | TypeIs(kind: TxType) | StatusIs(status: TxStatus) | CurrencyIs(currency: Currency)

  /** The filters of a listing, as asked. */
  datatype Query = Query(
    kind: Option<TxType>, status: Option<TxStatus>, currency: Option<Currency>,
    page: Option<int>, limit: Option<int>)

  predicate Holds(clause: Clause, rec: Record) {
    match clause
    case UserIs(user) => rec.user == user
    case TypeIs(kind) => rec.kind == kind
    case StatusIs(status) => rec.status == status
    case CurrencyIs(currency) => rec.from == currency || rec.to == currency
  }

  predicate AllHold(clauses: seq<Clause>, rec: Record) {
    forall clause :: clause in clauses ==> Holds(clause, rec)
  }

  /** A record of this user that passes every filter given. */
  predicate Matches(user: UserId, q: Query, rec: Record) {
    && rec.user == user
    && (q.kind.Some? ==> rec.kind == q.kind.value)
    && (q.status.Some? ==> rec.status == q.status.value)
    && (q.currency.Some? && q.currency.value != "" ==> ToUpper(q.currency.value) in {rec.from, rec.to})
  }

  function Select(rows: seq<Record>, clauses: seq<Clause>): seq<Record> {
    if rows == [] then []
    else (if AllHold(clauses, rows[0]) then [rows[0]] else []) + Select(rows[1..], clauses)
  }

  /** The records of `rows` this user asked for, in the order of `rows`. */
  function Filtered(rows: seq<Record>, user: UserId, q: Query): seq<Record> {
    if rows == [] then []
    else (if Matches(user, q, rows[0]) then [rows[0]] else []) + Filtered(rows[1..], user, q)
  }

  /** A filter written in lower case asks for the same records. */
  lemma {:induction false} FilterIgnoresCase(rows: seq<Record>, user: UserId, q: Query)
    requires q.currency.Some?
    ensures Filtered(rows, user, q) == Filtered(rows, user, q.(currency := Some(ToUpper(q.currency.value))))
  {
    if rows != [] {
      FilterIgnoresCase(rows[1..], user, q);
      assert ToUpper(ToUpper(q.currency.value)) == ToUpper(q.currency.value);
    }
  }

  // ---------- Order ----------

  /** A record with the time its row was created. */
  datatype Entry = Entry(rec: Record, createdAt: int)

  function PutIn(e: Entry, sorted: seq<Entry>): seq<Entry> {
    if sorted == [] || e.createdAt >= sorted[0].createdAt then [e] + sorted else [sorted[0]] + PutIn(e, sorted[1..])
  }

  /** `ORDER BY createdAt DESC`; of equal times the later row first. */
  function NewestFirst(table: seq<Entry>): seq<Entry> {
    if table == [] then [] else PutIn(table[|table| - 1], NewestFirst(table[..|table| - 1]))
  }

  function Records(entries: seq<Entry>): seq<Record> {
    if entries == [] then [] else [entries[0].rec] + Records(entries[1..])
  }

  /** The records in the order a listing asks for. */
  function Listed(table: seq<Entry>): seq<Record> {
    Records(NewestFirst(table))
  }

  ghost predicate Descending(entries: seq<Entry>) {
    forall i, j :: 0 <= i < j < |entries| ==> entries[i].createdAt >= entries[j].createdAt
  }

  lemma SplitAt<T>(s: seq<T>, i: nat)
    requires i < |s|
    ensures s == s[..i] + ([s[i]] + s[i + 1..])
  {
  }

  lemma MultisetOfMiddle<T>(a: seq<T>, x: T, b: seq<T>)
    ensures multiset(a + ([x] + b)) == multiset(a + b) + multiset{x}
  {
    assert multiset(a + ([x] + b)) == multiset(a) + (multiset{x} + multiset(b));
  }

  lemma {:induction false} PutInKeepsAll(e: Entry, sorted: seq<Entry>)
    ensures multiset(PutIn(e, sorted)) == multiset(sorted) + multiset{e}
  {
    if sorted != [] && e.createdAt < sorted[0].createdAt {
      PutInKeepsAll(e, sorted[1..]);
      assert sorted == [sorted[0]] + sorted[1..];
    }
  }

  /** Nothing in the sequence is newer than this. */
  ghost predicate NoneNewer(entries: seq<Entry>, time: int) {
    forall k :: 0 <= k < |entries| ==> time >= entries[k].createdAt
  }

  lemma {:induction false} PutInNoneNewer(e: Entry, sorted: seq<Entry>, time: int)
    requires NoneNewer(sorted, time) && e.createdAt <= time
    ensures NoneNewer(PutIn(e, sorted), time)
  {
    if sorted != [] && e.createdAt < sorted[0].createdAt { PutInNoneNewer(e, sorted[1..], time); }
  }

  lemma DescendingFrom(first: Entry, rest: seq<Entry>)
    requires Descending(rest) && NoneNewer(rest, first.createdAt)
    ensures Descending([first] + rest)
  {
  }

  lemma {:induction false} PutInOrders(e: Entry, sorted: seq<Entry>)
    requires Descending(sorted)
    ensures Descending(PutIn(e, sorted))
  {
    if sorted != [] {
      var first, rest := sorted[0], sorted[1..];
      assert NoneNewer(rest, first.createdAt);
      if e.createdAt >= first.createdAt {
        DescendingFrom(e, sorted);
      } else {
        PutInOrders(e, rest);
        PutInNoneNewer(e, rest, first.createdAt);
        DescendingFrom(first, PutIn(e, rest));
      }
    }
  }

  /** The listing's order has every row once, newest first. */
  lemma {:induction false} NewestFirstOrders(table: seq<Entry>)
    ensures Descending(NewestFirst(table)) && multiset(NewestFirst(table)) == multiset(table)
  {
    if table != [] {
      var front, last := table[..|table| - 1], table[|table| - 1];
      NewestFirstOrders(front);
      PutInOrders(last, NewestFirst(front));
      PutInKeepsAll(last, NewestFirst(front));
      MultisetOfLast(table);
    }
  }

  lemma MultisetOfLast<T>(s: seq<T>)
    requires s != []
    ensures multiset(s) == multiset(s[..|s| - 1]) + multiset{s[|s| - 1]}
  {
    assert s == s[..|s| - 1] + [s[|s| - 1]];
  }

  // ---------- Paging ----------

  datatype Meta = Meta(page: int, limit: int, total: nat, totalPages: nat, hasNext: bool, hasPrev: bool)
  datatype Page = Page(data: seq<Record>, meta: Meta)

  function Clamp(x: int, low: int, high: int): int
    requires low <= high
  {
    if x < low then low else if x > high then high else x
  }

  function SafeLimit(limit: Option<int>): (n: int)
    ensures 1 <= n <= 100
  {
    Clamp(match limit case Some(n) => n case None => 20, 1, 100)
  }

  function SafePage(page: Option<int>): (n: int)
    ensures n >= 1
  {
    var p := match page case Some(n) => n case None => 1;
    if p < 1 then 1 else p
  }

  /** Math.ceil(total / limit). */
  function TotalPages(total: nat, limit: int): nat
    requires limit >= 1
  {
    if total == 0 then 0 else (total + limit - 1) / limit
  }

  function Min(a: int, b: int): int {
    if a < b then a else b
  }

  /** `take(limit).skip(skip)`. */
  function Window(rows: seq<Record>, skip: nat, take: nat): seq<Record> {
    rows[Min(skip, |rows|)..Min(skip + take, |rows|)]
  }

  function PageOf(rows: seq<Record>, page: int, limit: int): Page
    requires page >= 1 && limit >= 1
  {
    var totalPages := TotalPages(|rows|, limit);
    Page(Window(rows, SkipTo(page, limit), limit),
         Meta(page, limit, |rows|, totalPages, page < totalPages, page > 1 && |rows| > 0))
  }

  function SkipTo(page: int, limit: int): nat
    requires page >= 1 && limit >= 1
  {
    SkipNonNegative(page - 1, limit);
    (page - 1) * limit
  }

  lemma SkipNonNegative(pages: int, limit: int)
    requires pages >= 0 && limit >= 1
    ensures pages * limit >= 0
  {
  }

  // ---------- The service ----------

  /** The query object `getUserTransactions` fills in and `paginate` bounds. */
  class QueryBuilder {
    const table: seq<Record>   // in the order asked for
    var clauses: seq<Clause>
    var taken: int
    var skipped: nat

    constructor (table: seq<Record>, first: Clause)
      ensures this.table == table && clauses == [first]
    {
      this.table, clauses, taken, skipped := table, [first], 0, 0;
    }

    method AndWhere(clause: Clause)
      modifies this`clauses
      ensures clauses == old(clauses) + [clause]
    {
      clauses := clauses + [clause];
    }

    method TakeSkip(take: int, skip: nat)
      modifies this`taken, this`skipped
      ensures taken == take && skipped == skip
    {
      taken, skipped := take, skip;
    }

    method GetManyAndCount() returns (data: seq<Record>, total: nat)
      requires taken >= 0
      ensures data == Window(Select(table, clauses), skipped, taken)
      ensures total == |Select(table, clauses)|
    {
      var matching: seq<Record> := [];
      for i := 0 to |table|
        invariant matching == Select(table[..i], clauses)
      {
        SelectNext(table, i, clauses);
        if AllHold(clauses, table[i]) { matching := matching + [table[i]]; }
      }
      assert table[..|table|] == table;
      data := Window(matching, skipped, taken);
      total := |matching|;
    }
  }

  lemma {:induction false} SelectConcat(a: seq<Record>, b: seq<Record>, clauses: seq<Clause>)
    ensures Select(a + b, clauses) == Select(a, clauses) + Select(b, clauses)
  {
    if a == [] {
      assert a + b == b;
    } else {
      SelectConcat(a[1..], b, clauses);
      assert (a + b)[0] == a[0] && (a + b)[1..] == a[1..] + b;
      Associate(if AllHold(clauses, a[0]) then [a[0]] else [], Select(a[1..], clauses), Select(b, clauses));
    }
  }

  lemma Associate<T>(a: seq<T>, b: seq<T>, c: seq<T>)
    ensures a + (b + c) == (a + b) + c
  {
  }

  lemma SelectNext(rows: seq<Record>, i: nat, clauses: seq<Clause>)
    requires i < |rows|
    ensures Select(rows[..i + 1], clauses)
         == Select(rows[..i], clauses) + if AllHold(clauses, rows[i]) then [rows[i]] else []
  {
    SelectConcat(rows[..i], [rows[i]], clauses);
    assert rows[..i + 1] == rows[..i] + [rows[i]];
    assert [rows[i]][1..] == [];
  }

  /** Clauses added one by one select what the query asks for. */
  lemma {:induction false} SelectIsFiltered(rows: seq<Record>, clauses: seq<Clause>, user: UserId, q: Query)
    requires forall rec :: AllHold(clauses, rec) <==> Matches(user, q, rec)
    ensures Select(rows, clauses) == Filtered(rows, user, q)
  {
    if rows != [] { SelectIsFiltered(rows[1..], clauses, user, q); }
  }

  /** The page a query is answered with. */
  function Answered(table: seq<Entry>, user: UserId, q: Query): Page {
    PageOf(Filtered(Listed(table), user, q), SafePage(q.page), SafeLimit(q.limit))
  }

  class TransactionsService {
    var table: seq<Entry>

    method Paginate(qb: QueryBuilder, page: Option<int>, limit: Option<int>) returns (res: Page)
      modifies qb`taken, qb`skipped
      ensures res == PageOf(Select(qb.table, qb.clauses), SafePage(page), SafeLimit(limit))
    {
      var safeLimit, safePage := SafeLimit(limit), SafePage(page);
      qb.TakeSkip(safeLimit, SkipTo(safePage, safeLimit));
      var data, total := qb.GetManyAndCount();
      var totalPages := if total == 0 then 0 else (total + safeLimit - 1) / safeLimit;
      res := Page(data, Meta(safePage, safeLimit, total, totalPages, safePage < totalPages, safePage > 1 && total > 0));
    }

    /** Lists a page of the user's matching records, newest first. */
    method GetUserTransactions(user: UserId, q: Query) returns (res: Page)
      ensures res == Answered(table, user, q)
    {
      var qb := new QueryBuilder(Listed(table), UserIs(user));
      if q.kind.Some? { qb.AndWhere(TypeIs(q.kind.value)); }
      if q.status.Some? { qb.AndWhere(StatusIs(q.status.value)); }
      if q.currency.Some? && q.currency.value != "" { qb.AndWhere(CurrencyIs(ToUpper(q.currency.value))); }
      assert qb.clauses == ClausesOf(user, q);
      ClausesMatch(user, q);
      SelectIsFiltered(Listed(table), qb.clauses, user, q);
      res := Paginate(qb, q.page, q.limit);
    }
  }

  function ClausesOf(user: UserId, q: Query): seq<Clause> {
    [UserIs(user)]
    + (if q.kind.Some? then [TypeIs(q.kind.value)] else [])
    + (if q.status.Some? then [StatusIs(q.status.value)] else [])
    + (if q.currency.Some? && q.currency.value != "" then [CurrencyIs(ToUpper(q.currency.value))] else [])
  }

  lemma ClausesMatch(user: UserId, q: Query)
    ensures forall rec :: AllHold(ClausesOf(user, q), rec) <==> Matches(user, q, rec)
  {
    forall rec ensures AllHold(ClausesOf(user, q), rec) <==> Matches(user, q, rec) {
      assert Holds(UserIs(user), rec) <==> rec.user == user;
      if AllHold(ClausesOf(user, q), rec) {
        assert UserIs(user) in ClausesOf(user, q);
        if q.kind.Some? { assert TypeIs(q.kind.value) in ClausesOf(user, q); }
        if q.status.Some? { assert StatusIs(q.status.value) in ClausesOf(user, q); }
        if q.currency.Some? && q.currency.value != "" { assert CurrencyIs(ToUpper(q.currency.value)) in ClausesOf(user, q); }
      }
    }
  }

  // ---------- Pages partition the history ----------

  function Pages(rows: seq<Record>, limit: int, count: nat): seq<Record>
    requires limit >= 1
  {
    if count == 0 then [] else Pages(rows, limit, count - 1) + PageOf(rows, count, limit).data
  }

  /** The first `count` pages are the first count * limit records. */
  lemma {:induction false} PagesArePrefix(rows: seq<Record>, limit: int, count: nat)
    requires limit >= 1
    ensures count * limit >= 0 && Pages(rows, limit, count) == rows[..Min(count * limit, |rows|)]
  {
    if count > 0 {
      PagesArePrefix(rows, limit, count - 1);
      OneMoreTime(count, limit);
      WindowExtends(rows, SkipTo(count, limit), limit);
    }
  }

  lemma OneMoreTime(count: nat, limit: int)
    requires count > 0 && limit >= 1
    ensures count * limit == SkipTo(count, limit) + limit
  {
  }

  lemma WindowExtends(rows: seq<Record>, skip: nat, take: nat)
    ensures rows[..Min(skip, |rows|)] + Window(rows, skip, take) == rows[..Min(skip + take, |rows|)]
  {
  }

  lemma CeilingCovers(total: nat, limit: int)
    requires limit >= 1
    ensures TotalPages(total, limit) * limit >= total
    ensures TotalPages(total, limit) > 0 ==> (TotalPages(total, limit) - 1) * limit < total
  {
    var pages := (total + limit - 1) / limit;
    assert total + limit - 1 == pages * limit + (total + limit - 1) % limit;
    assert (pages - 1) * limit == pages * limit - limit;
  }

  /** Pages 1 to totalPages are the whole history, every record once and in order. */
  lemma PagesPartition(rows: seq<Record>, limit: int)
    requires limit >= 1
    ensures Pages(rows, limit, TotalPages(|rows|, limit)) == rows
  {
    PagesArePrefix(rows, limit, TotalPages(|rows|, limit));
    CeilingCovers(|rows|, limit);
  }

  /** No page up to totalPages is empty, and every later page is. */
  lemma PageEmptyIff(rows: seq<Record>, page: int, limit: int)
    requires page >= 1 && limit >= 1
    ensures PageOf(rows, page, limit).data == [] <==> page > TotalPages(|rows|, limit)
  {
    var pages := TotalPages(|rows|, limit);
    CeilingCovers(|rows|, limit);
    if page > pages {
      MoreIsMore(pages, page - 1, limit);
    } else {
      MoreIsMore(page - 1, pages - 1, limit);
    }
  }

  /** `hasNext` is true exactly when the next page has records. */
  lemma HasNextIff(rows: seq<Record>, page: int, limit: int)
    requires page >= 1 && limit >= 1
    ensures PageOf(rows, page, limit).meta.hasNext <==> PageOf(rows, page + 1, limit).data != []
  {
    PageEmptyIff(rows, page + 1, limit);
  }

  /** `hasPrev` says the page before has records, except beyond the page after the last: exactly there it misleads. */
  lemma HasPrevIff(rows: seq<Record>, page: int, limit: int)
    requires page >= 2 && limit >= 1
    ensures (PageOf(rows, page, limit).meta.hasPrev <==> PageOf(rows, page - 1, limit).data != [])
       <==> page <= TotalPages(|rows|, limit) + 1 || rows == []
  {
    PageEmptyIff(rows, page - 1, limit);
    CeilingCovers(|rows|, limit);
  }

  /** One record, the third page of one record each: `hasPrev` is true and the page before is empty. */
  lemma HasPrevMisleads(rec: Record)
    ensures PageOf([rec], 3, 1).meta.hasPrev && PageOf([rec], 2, 1).data == []
  {
    assert SkipTo(2, 1) == 1;
  }

  lemma MoreIsMore(a: int, b: int, limit: int)
    requires a <= b && limit >= 1
    ensures a * limit <= b * limit
  {
  }

  /** The pages a client sees that follows hasNext from a page on. */
  function Follow(rows: seq<Record>, page: int, limit: int): seq<Page>
    requires page >= 1 && limit >= 1
    decreases TotalPages(|rows|, limit) - page
  {
    var first := PageOf(rows, page, limit);
    [first] + if first.meta.hasNext then Follow(rows, page + 1, limit) else []
  }

  function Data(pages: seq<Page>): seq<Record> {
    if pages == [] then [] else pages[0].data + Data(pages[1..])
  }

  lemma {:induction false} FollowFrom(rows: seq<Record>, page: int, limit: int)
    requires 1 <= page && limit >= 1 && page <= Max(1, TotalPages(|rows|, limit))
    ensures |Follow(rows, page, limit)| == Max(1, TotalPages(|rows|, limit)) - page + 1
    ensures Pages(rows, limit, page - 1) + Data(Follow(rows, page, limit)) == rows
    decreases TotalPages(|rows|, limit) - page
  {
    var pages, first := TotalPages(|rows|, limit), PageOf(rows, page, limit);
    if page < pages {
      FollowFrom(rows, page + 1, limit);
      FollowMore(rows, page, limit);
    } else {
      FollowLast(rows, page, limit);
    }
  }

  lemma FollowMore(rows: seq<Record>, page: int, limit: int)
    requires limit >= 1 && 1 <= page < TotalPages(|rows|, limit)
    ensures Follow(rows, page, limit) == [PageOf(rows, page, limit)] + Follow(rows, page + 1, limit)
    ensures Pages(rows, limit, page - 1) + Data(Follow(rows, page, limit))
         == Pages(rows, limit, page) + Data(Follow(rows, page + 1, limit))
  {
    var before, first, rest := Pages(rows, limit, page - 1), PageOf(rows, page, limit), Follow(rows, page + 1, limit);
    DataOfFirst(first, rest);
    Associate(before, first.data, Data(rest));
  }

  lemma DataOfFirst(first: Page, rest: seq<Page>)
    ensures Data([first] + rest) == first.data + Data(rest)
  {
    assert ([first] + rest)[1..] == rest;
  }

  lemma FollowLast(rows: seq<Record>, page: int, limit: int)
    requires limit >= 1 && page == Max(1, TotalPages(|rows|, limit))
    ensures Follow(rows, page, limit) == [PageOf(rows, page, limit)]
    ensures Pages(rows, limit, page - 1) + Data(Follow(rows, page, limit)) == rows
  {
    var first := PageOf(rows, page, limit);
    assert Data([first]) == first.data;
    if TotalPages(|rows|, limit) == 0 { CeilingCovers(|rows|, limit); } else { PagesPartition(rows, limit); }
  }

  function Max(a: int, b: int): int {
    if a > b then a else b
  }

  /** Following hasNext from page 1 ends after max(1, totalPages) pages and collects the whole history. */
  lemma FollowCollectsAll(rows: seq<Record>, limit: int)
    requires limit >= 1
    ensures |Follow(rows, 1, limit)| == Max(1, TotalPages(|rows|, limit))
    ensures Data(Follow(rows, 1, limit)) == rows
  {
    FollowFrom(rows, 1, limit);
    assert Pages(rows, limit, 0) == [];
  }

  // ---------- Statistics ----------

  /** One row of `GROUP BY type, status`. */
  datatype Group = Group(count: nat, totalAmount: real)
  datatype GroupKey = GroupKey(kind: TxType, status: TxStatus)

  function KeyOf(rec: Record): GroupKey {
    GroupKey(rec.kind, rec.status)
  }

  function AddTo(groups: map<GroupKey, Group>, rec: Record): map<GroupKey, Group> {
    var g := GroupAt(groups, KeyOf(rec));
    groups[KeyOf(rec) := Group(g.count + 1, g.totalAmount + rec.fromAmount)]
  }

  /** A group without records has no row; it counts as empty. */
  function GroupAt(groups: map<GroupKey, Group>, key: GroupKey): Group {
    if key in groups then groups[key] else Group(0, 0.0)
  }

  /** `getTransactionStats`: the groups of this user's records. */
  function Stats(rows: seq<Record>, user: UserId): map<GroupKey, Group> {
    if rows == [] then map[]
    else
      var rest := Stats(rows[1..], user);
      if rows[0].user == user then AddTo(rest, rows[0]) else rest
  }

  function AmountOf(rows: seq<Record>): real {
    if rows == [] then 0.0 else rows[0].fromAmount + AmountOf(rows[1..])
  }

  function InGroup(key: GroupKey): Query {
    Query(Some(key.kind), Some(key.status), None, None, None)
  }

  const EVERYTHING: Query := Query(None, None, None, None, None)

  /** Each group's count is the `total` of the listing filtered to it, and its amount that listing's sum. */
  lemma {:induction false} StatsAgreeWithListing(rows: seq<Record>, user: UserId, key: GroupKey)
    ensures var listing := Filtered(rows, user, InGroup(key));
            GroupAt(Stats(rows, user), key) == Group(|listing|, AmountOf(listing))
    ensures key in Stats(rows, user) <==> Filtered(rows, user, InGroup(key)) != []
  {
    if rows != [] {
      StatsAgreeWithListing(rows[1..], user, key);
      var rest := Filtered(rows[1..], user, InGroup(key));
      assert Matches(user, InGroup(key), rows[0]) <==> rows[0].user == user && KeyOf(rows[0]) == key;
      if Matches(user, InGroup(key), rows[0]) {
        assert ([rows[0]] + rest)[1..] == rest;
      } else {
        assert [] + rest == rest;
      }
    }
  }

  const KEYS: seq<GroupKey> := [
    GroupKey(FUNDING, PENDING), GroupKey(FUNDING, SUCCESS), GroupKey(FUNDING, FAILED),
    GroupKey(CONVERSION, PENDING), GroupKey(CONVERSION, SUCCESS), GroupKey(CONVERSION, FAILED),
    GroupKey(TRADE, PENDING), GroupKey(TRADE, SUCCESS), GroupKey(TRADE, FAILED)]

  function SumOver(groups: map<GroupKey, Group>, keys: seq<GroupKey>): Group {
    if keys == [] then Group(0, 0.0)
    else
      var g, rest := GroupAt(groups, keys[0]), SumOver(groups, keys[1..]);
      Group(g.count + rest.count, g.totalAmount + rest.totalAmount)
  }

  lemma {:induction false} SumAfterAdd(groups: map<GroupKey, Group>, rec: Record, keys: seq<GroupKey>)
    requires Distinct(keys)
    ensures var before, after := SumOver(groups, keys), SumOver(AddTo(groups, rec), keys);
            if KeyOf(rec) in keys then after == Group(before.count + 1, before.totalAmount + rec.fromAmount)
            else after == before
  {
    if keys != [] {
      SumAfterAdd(groups, rec, keys[1..]);
      assert KeyOf(rec) in keys <==> KeyOf(rec) == keys[0] || KeyOf(rec) in keys[1..];
      assert keys[0] !in keys[1..];
    }
  }

  lemma EveryKeyListed(key: GroupKey)
    ensures key in KEYS && Distinct(KEYS)
  {
    var block := match key.kind case FUNDING => 0 case CONVERSION => 3 case TRADE => 6;
    var offset := match key.status case PENDING => 0 case SUCCESS => 1 case FAILED => 2;
    assert KEYS[block + offset] == key;
  }

  lemma {:induction false} EmptySums(keys: seq<GroupKey>)
    ensures SumOver(map[], keys) == Group(0, 0.0)
  {
    if keys != [] { EmptySums(keys[1..]); }
  }

  /** The groups together are the unfiltered listing: its total and the sum of all its pages. */
  lemma {:induction false} StatsSumToHistory(rows: seq<Record>, user: UserId)
    ensures var listing := Filtered(rows, user, EVERYTHING);
            SumOver(Stats(rows, user), KEYS) == Group(|listing|, AmountOf(listing))
  {
    if rows == [] {
      EmptySums(KEYS);
    } else {
      StatsSumToHistory(rows[1..], user);
      var rest := Filtered(rows[1..], user, EVERYTHING);
      if rows[0].user == user {
        EveryKeyListed(KeyOf(rows[0]));
        SumAfterAdd(Stats(rows[1..], user), rows[0], KEYS);
        assert ([rows[0]] + rest)[1..] == rest;
      } else {
        assert [] + rest == rest;
      }
    }
  }

  function Plus(g: Group, h: Group): Group {
    Group(g.count + h.count, g.totalAmount + h.totalAmount)
  }

  /** What one record adds to a group. */
  function ShareOf(rec: Record, user: UserId, key: GroupKey): Group {
    if rec.user == user && KeyOf(rec) == key then Group(1, rec.fromAmount) else Group(0, 0.0)
  }

  lemma StatsOfFirst(rows: seq<Record>, user: UserId, key: GroupKey)
    requires rows != []
    ensures GroupAt(Stats(rows, user), key) == Plus(ShareOf(rows[0], user, key), GroupAt(Stats(rows[1..], user), key))
  {
  }

  lemma PlusAssociates(a: Group, b: Group, c: Group)
    ensures Plus(Plus(a, b), c) == Plus(a, Plus(b, c))
  {
  }

  lemma {:induction false} StatsOfConcat(a: seq<Record>, b: seq<Record>, user: UserId, key: GroupKey)
    ensures GroupAt(Stats(a + b, user), key) == Plus(GroupAt(Stats(a, user), key), GroupAt(Stats(b, user), key))
  {
    if a == [] {
      assert a + b == b;
    } else {
      assert (a + b)[0] == a[0] && (a + b)[1..] == a[1..] + b;
      StatsOfConcat(a[1..], b, user, key);
      StatsOfFirst(a + b, user, key);
      StatsOfFirst(a, user, key);
      PlusAssociates(ShareOf(a[0], user, key), GroupAt(Stats(a[1..], user), key), GroupAt(Stats(b, user), key));
    }
  }

  lemma StatsTakingOut(x: seq<Record>, y: seq<Record>, z: seq<Record>, user: UserId, key: GroupKey)
    ensures GroupAt(Stats(x + (y + z), user), key)
         == Plus(GroupAt(Stats(y, user), key), GroupAt(Stats(x + z, user), key))
  {
    StatsOfConcat(x, y + z, user, key);
    StatsOfConcat(y, z, user, key);
    StatsOfConcat(x, z, user, key);
    PlusSwaps(GroupAt(Stats(x, user), key), GroupAt(Stats(y, user), key), GroupAt(Stats(z, user), key));
  }

  lemma PlusSwaps(a: Group, b: Group, c: Group)
    ensures Plus(a, Plus(b, c)) == Plus(b, Plus(a, c))
  {
  }

  function Without<T>(rows: seq<T>, i: nat): seq<T>
    requires i < |rows|
  {
    rows[..i] + rows[i + 1..]
  }

  lemma StatsWithout(rows: seq<Record>, i: nat, user: UserId, key: GroupKey)
    requires i < |rows|
    ensures GroupAt(Stats(rows, user), key)
         == Plus(GroupAt(Stats([rows[i]], user), key), GroupAt(Stats(Without(rows, i), user), key))
  {
    SplitAt(rows, i);
    StatsTakingOut(rows[..i], [rows[i]], rows[i + 1..], user, key);
  }

  lemma MultisetWithout<T>(rows: seq<T>, i: nat)
    requires i < |rows|
    ensures multiset(Without(rows, i)) == multiset(rows) - multiset{rows[i]}
  {
    SplitAt(rows, i);
    MultisetOfMiddle(rows[..i], rows[i], rows[i + 1..]);
  }

  /** Statistics do not depend on the order the table is read in. */
  lemma {:induction false} StatsIgnoreOrder(a: seq<Record>, b: seq<Record>, user: UserId, key: GroupKey)
    requires multiset(a) == multiset(b)
    ensures GroupAt(Stats(a, user), key) == GroupAt(Stats(b, user), key)
  {
    if a == [] {
      assert |multiset(b)| == 0;
    } else {
      assert a[0] in multiset(b);
      var i: nat :| i < |b| && b[i] == a[0];
      MultisetWithout(a, 0);
      MultisetWithout(b, i);
      StatsIgnoreOrder(Without(a, 0), Without(b, i), user, key);
      StatsWithout(a, 0, user, key);
      StatsWithout(b, i, user, key);
    }
  }

  /** Group by group, the statistics of the table are those of its listing. */
  lemma StatsOfListed(table: seq<Entry>, user: UserId, key: GroupKey)
    ensures GroupAt(Stats(Listed(table), user), key) == GroupAt(Stats(Records(table), user), key)
  {
    NewestFirstOrders(table);
    RecordsIgnoreOrder(NewestFirst(table), table);
    StatsIgnoreOrder(Listed(table), Records(table), user, key);
  }

  lemma {:induction false} RecordsOfConcat(a: seq<Entry>, b: seq<Entry>)
    ensures Records(a + b) == Records(a) + Records(b)
  {
    if a == [] {
      assert a + b == b;
    } else {
      RecordsOfConcat(a[1..], b);
      assert (a + b)[1..] == a[1..] + b;
    }
  }

  lemma RecordsWithout(a: seq<Entry>, i: nat)
    requires i < |a|
    ensures multiset(Records(a)) == multiset(Records(Without(a, i))) + multiset{a[i].rec}
  {
    var front, rest := a[..i], a[i + 1..];
    SplitAt(a, i);
    RecordsOfMiddle(front, a[i], rest);
    RecordsOfConcat(front, rest);
    MultisetOfMiddle(Records(front), a[i].rec, Records(rest));
  }

  lemma RecordsOfMiddle(front: seq<Entry>, e: Entry, rest: seq<Entry>)
    ensures Records(front + ([e] + rest)) == Records(front) + ([e.rec] + Records(rest))
  {
    RecordsOfConcat(front, [e] + rest);
    assert ([e] + rest)[1..] == rest;
  }

  lemma {:induction false} RecordsIgnoreOrder(a: seq<Entry>, b: seq<Entry>)
    requires multiset(a) == multiset(b)
    ensures multiset(Records(a)) == multiset(Records(b))
  {
    if a == [] {
      assert |multiset(b)| == 0;
    } else {
      assert a[0] in multiset(b);
      var i: nat :| i < |b| && b[i] == a[0];
      MultisetWithout(a, 0);
      MultisetWithout(b, i);
      RecordsIgnoreOrder(Without(a, 0), Without(b, i));
      RecordsWithout(a, 0);
      RecordsWithout(b, i);
    }
  }

  lemma ExecuteAppends(before: Ledger, r: Request)
    requires !r.EnsureWallet? && Execute(before, r).Ok?
    ensures var l := Execute(before, r).value;
            r.user in l.wallets && l.records == before.records + [RecordOf(r, l.wallets[r.user])]
  {
  }

  lemma StatsOfOne(rec: Record, user: UserId, key: GroupKey)
    ensures GroupAt(Stats([rec], user), key) == ShareOf(rec, user, key)
  {
    var rows, rest := [rec], [rec][1..];
    assert rest == [];
    assert GroupAt(Stats(rest, user), key) == Group(0, 0.0);
    StatsOfFirst(rows, user, key);
  }

  lemma StatsOfAppended(rows: seq<Record>, rec: Record, user: UserId, key: GroupKey)
    ensures GroupAt(Stats(rows + [rec], user), key) == Plus(GroupAt(Stats(rows, user), key), ShareOf(rec, user, key))
  {
    StatsOfConcat(rows, [rec], user, key);
    StatsOfOne(rec, user, key);
  }

  /** A committed `fund` or `convert` advances exactly its own group, by one record and its amount. */
  lemma CommitAdvancesOneGroup(before: Ledger, r: Request, user: UserId, key: GroupKey)
    requires !r.EnsureWallet? && Execute(before, r).Ok?
    ensures var l := Execute(before, r).value;
            r.user in l.wallets &&
            var rec := RecordOf(r, l.wallets[r.user]);
            var g := GroupAt(Stats(before.records, user), key);
            GroupAt(Stats(l.records, user), key) ==
              if user == r.user && key == KeyOf(rec) then Group(g.count + 1, g.totalAmount + rec.fromAmount) else g
    ensures KeyOf(RecordOf(r, Execute(before, r).value.wallets[r.user]))
         == GroupKey(if r.Fund? then FUNDING else if r.Convert? && r.trade then TRADE else CONVERSION, SUCCESS)
  {
    ExecuteAppends(before, r);
    StatsOfAppended(before.records, RecordOf(r, Execute(before, r).value.wallets[r.user]), user, key);
  }

  /** In every interleaving a step advances one group of one user exactly when it commits that user's request. */
  lemma StepAdvancesStats(s: State, e: Event, user: UserId, key: GroupKey)
    requires Inv(s) && Step(s, e).Some?
    ensures var before, after := GroupAt(Stats(s.db.records, user), key), GroupAt(Stats(Step(s, e).value.db.records, user), key);
            var log := CommittedBy(s, e);
            if log == [] || log[0].EnsureWallet? || log[0].user != user || key != KeyOf(RecordOf(log[0], 0)) then after == before
            else after == Group(before.count + 1, before.totalAmount + RecordOf(log[0], 0).fromAmount)
  {
    StepIsAtomic(s, e);
    if CommittedBy(s, e) != [] {
      var r := CommittedBy(s, e)[0];
      if r.EnsureWallet? {
        assert Execute(s.db, r).value.records == s.db.records;
      } else {
        CommitAdvancesOneGroup(s.db, r, user, key);
      }
    }
  }
}
