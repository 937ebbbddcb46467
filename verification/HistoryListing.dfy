// What a client of the history sees: the pages it asks for one by one, their records
// and order, and what their metadata says.
module HistoryListing {
  import opened Wrappers
  import opened Currencies
  import opened WalletLedger
  import opened TransactionHistory

  // ---------- Codes ----------

  const LOWER: string := "abcdefghijklmnopqrstuvwxyz"
  const UPPER: string := "ABCDEFGHIJKLMNOPQRSTUVWXYZ"

  /** Each lower-case letter is raised to its own capital, and nothing else changes. */
  lemma UpperCase(code: string)
    ensures ToUpper(LOWER) == UPPER
    ensures |ToUpper(code)| == |code|
    ensures forall i :: 0 <= i < |code| && !('a' <= code[i] <= 'z') ==> ToUpper(code)[i] == code[i]
  {
  }

  // ---------- The page and limit used ----------

  /** The page asked for from 1 on, else the first; the limit asked for between 1 and 100, else the nearer end, and 20
      when none is given. */
  lemma ClampsUsed(n: int)
    ensures SafePage(None) == 1 && (n >= 1 ==> SafePage(Some(n)) == n) && (n < 1 ==> SafePage(Some(n)) == 1)
    ensures SafeLimit(None) == 20 && (1 <= n <= 100 ==> SafeLimit(Some(n)) == n)
    ensures (n < 1 ==> SafeLimit(Some(n)) == 1) && (n > 100 ==> SafeLimit(Some(n)) == 100)
  {
  }

  lemma {:induction false} FilterIgnoresPage(rows: seq<Record>, user: UserId, q: Query, page: Option<int>)
    ensures Filtered(rows, user, q.(page := page)) == Filtered(rows, user, q)
  {
    if rows != [] { FilterIgnoresPage(rows[1..], user, q, page); }
  }

  /** The k-th page of a query. */
  function PageAsked(table: seq<Entry>, user: UserId, q: Query, k: int): Page {
    Answered(table, user, q.(page := Some(k)))
  }

  function History(table: seq<Entry>, user: UserId, q: Query): seq<Record> {
    Filtered(Listed(table), user, q)
  }

  lemma PageAskedIs(table: seq<Entry>, user: UserId, q: Query, k: int)
    requires k >= 1
    ensures PageAsked(table, user, q, k) == PageOf(History(table, user, q), k, SafeLimit(q.limit))
  {
    ClampsUsed(k);
    FilterIgnoresPage(Listed(table), user, q, Some(k));
  }

  /** The metadata of the k-th page: the page asked, the limit used, how many records match, how many pages they fill,
      and whether there is one after and one before. */
  lemma MetaSays(table: seq<Entry>, user: UserId, q: Query, k: int)
    requires k >= 1
    ensures var page, total := PageAsked(table, user, q, k), |History(table, user, q)|;
            var meta := page.meta;
            && meta.page == k && meta.limit == SafeLimit(q.limit) && meta.total == total
            && meta.totalPages * meta.limit >= total
            && (total > 0 ==> (meta.totalPages - 1) * meta.limit < total) && (total == 0 ==> meta.totalPages == 0)
            && (meta.hasNext <==> k < meta.totalPages) && (meta.hasPrev <==> k > 1 && total > 0)
            && (k < meta.totalPages ==> |page.data| == meta.limit)
            && (k == meta.totalPages ==> |page.data| == total - (k - 1) * meta.limit)
            && (k > meta.totalPages ==> page.data == [])
  {
    var rows, limit := History(table, user, q), SafeLimit(q.limit);
    PageAskedIs(table, user, q, k);
    CeilingCovers(|rows|, limit);
    PageEmptyIff(rows, k, limit);
    FullPage(rows, k, limit);
  }

  lemma FullPage(rows: seq<Record>, k: int, limit: int)
    requires k >= 1 && limit >= 1
    ensures k < TotalPages(|rows|, limit) ==> |PageOf(rows, k, limit).data| == limit
    ensures k == TotalPages(|rows|, limit) ==> |PageOf(rows, k, limit).data| == |rows| - (k - 1) * limit
  {
    var pages := TotalPages(|rows|, limit);
    CeilingCovers(|rows|, limit);
    OneMoreTime(k, limit);
    if k < pages { MoreIsMore(k, pages - 1, limit); }
  }

  // ---------- All pages asked one by one ----------

  function FirstPages(table: seq<Entry>, user: UserId, q: Query, count: nat): seq<Record> {
    if count == 0 then [] else FirstPages(table, user, q, count - 1) + PageAsked(table, user, q, count).data
  }

  lemma {:induction false} FirstPagesAre(table: seq<Entry>, user: UserId, q: Query, count: nat)
    ensures FirstPages(table, user, q, count) == Pages(History(table, user, q), SafeLimit(q.limit), count)
  {
    if count > 0 {
      FirstPagesAre(table, user, q, count - 1);
      PageAskedIs(table, user, q, count);
    }
  }

  /** Asking pages 1 to totalPages gives the whole filtered history, each record once and in order. */
  lemma PagesAskedPartition(table: seq<Entry>, user: UserId, q: Query)
    ensures FirstPages(table, user, q, PageAsked(table, user, q, 1).meta.totalPages) == History(table, user, q)
  {
    PageAskedIs(table, user, q, 1);
    FirstPagesAre(table, user, q, PageAsked(table, user, q, 1).meta.totalPages);
    PagesPartition(History(table, user, q), SafeLimit(q.limit));
  }

  /** What a client sees that asks for the next page as long as `hasNext` says so. */
  function FollowAsked(table: seq<Entry>, user: UserId, q: Query, k: int): seq<Page>
    requires k >= 1
    decreases PageAsked(table, user, q, 1).meta.totalPages - k
  {
    PageAskedIs(table, user, q, 1);
    PageAskedIs(table, user, q, k);
    var page := PageAsked(table, user, q, k);
    [page] + if page.meta.hasNext then FollowAsked(table, user, q, k + 1) else []
  }

  /** One more page of the client's, and one more window of the list. */
  lemma FollowAskedStep(table: seq<Entry>, user: UserId, q: Query, k: int)
    requires k >= 1
    ensures var page := PageOf(History(table, user, q), k, SafeLimit(q.limit));
            FollowAsked(table, user, q, k) == [page] + if page.meta.hasNext then FollowAsked(table, user, q, k + 1) else []
  {
    PageAskedIs(table, user, q, k);
  }

  lemma FollowStep(rows: seq<Record>, k: int, limit: int)
    requires k >= 1 && limit >= 1
    ensures var page := PageOf(rows, k, limit);
            Follow(rows, k, limit) == [page] + if page.meta.hasNext then Follow(rows, k + 1, limit) else []
    ensures PageOf(rows, k, limit).meta.hasNext <==> k < TotalPages(|rows|, limit)
  {
  }

  lemma {:induction false} FollowAskedIs(table: seq<Entry>, user: UserId, q: Query, k: int, pages: int)
    requires k >= 1 && pages == TotalPages(|History(table, user, q)|, SafeLimit(q.limit))
    ensures FollowAsked(table, user, q, k) == Follow(History(table, user, q), k, SafeLimit(q.limit))
    decreases pages - k
  {
    FollowAskedStep(table, user, q, k);
    FollowStep(History(table, user, q), k, SafeLimit(q.limit));
    if k < pages { FollowAskedIs(table, user, q, k + 1, pages); }
  }

  /** From page 1 the client ends after max(1, totalPages) pages and has collected the whole filtered history. */
  lemma FollowAskedCollectsAll(table: seq<Entry>, user: UserId, q: Query)
    ensures |FollowAsked(table, user, q, 1)| == Max(1, PageAsked(table, user, q, 1).meta.totalPages)
    ensures Data(FollowAsked(table, user, q, 1)) == History(table, user, q)
  {
    PageAskedIs(table, user, q, 1);
    FollowAskedIs(table, user, q, 1, TotalPages(|History(table, user, q)|, SafeLimit(q.limit)));
    FollowCollectsAll(History(table, user, q), SafeLimit(q.limit));
  }

  // ---------- Which records, in which order ----------

  /** The rows a query asks for, said column by column. */
  predicate Wanted(user: UserId, q: Query, rec: Record) {
    && rec.user == user
    && (q.kind == None || q.kind == Some(rec.kind)) && (q.status == None || q.status == Some(rec.status))
    && (q.currency in {None, Some("")} || rec.from == ToUpper(q.currency.value) || rec.to == ToUpper(q.currency.value))
  }

  function WantedOf(entries: seq<Entry>, user: UserId, q: Query): seq<Entry> {
    if entries == [] then []
    else (if Wanted(user, q, entries[0].rec) then [entries[0]] else []) + WantedOf(entries[1..], user, q)
  }

  lemma {:induction false} WantedRecords(entries: seq<Entry>, user: UserId, q: Query)
    ensures Records(WantedOf(entries, user, q)) == Filtered(Records(entries), user, q)
  {
    if entries != [] {
      var first, rest := entries[0], WantedOf(entries[1..], user, q);
      WantedRecords(entries[1..], user, q);
      assert Wanted(user, q, first.rec) <==> Matches(user, q, first.rec);
      assert Records(entries)[0] == first.rec && Records(entries)[1..] == Records(entries[1..]);
      assert WantedOf(entries, user, q) == if Wanted(user, q, first.rec) then [first] + rest else rest;
      RecordsOfFirst(first, rest);
    }
  }

  lemma RecordsOfFirst(e: Entry, rest: seq<Entry>)
    ensures Records([e] + rest) == [e.rec] + Records(rest)
  {
    assert ([e] + rest)[1..] == rest;
  }

  lemma {:induction false} WantedCount(entries: seq<Entry>, user: UserId, q: Query, e: Entry)
    ensures multiset(WantedOf(entries, user, q))[e] == if Wanted(user, q, e.rec) then multiset(entries)[e] else 0
  {
    if entries != [] {
      WantedCount(entries[1..], user, q, e);
      assert entries == [entries[0]] + entries[1..];
    }
  }

  lemma {:induction false} WantedNoneNewer(entries: seq<Entry>, user: UserId, q: Query, time: int)
    requires NoneNewer(entries, time)
    ensures NoneNewer(WantedOf(entries, user, q), time)
  {
    if entries != [] {
      assert entries[0].createdAt <= time;
      WantedNoneNewer(entries[1..], user, q, time);
    }
  }

  lemma {:induction false} WantedDescending(entries: seq<Entry>, user: UserId, q: Query)
    requires Descending(entries)
    ensures Descending(WantedOf(entries, user, q))
  {
    if entries != [] {
      WantedDescending(entries[1..], user, q);
      WantedNoneNewer(entries[1..], user, q, entries[0].createdAt);
      DescendingFrom(entries[0], WantedOf(entries[1..], user, q));
      assert [] + WantedOf(entries[1..], user, q) == WantedOf(entries[1..], user, q);
    }
  }

  /** These entries are the wanted rows of the table, each as often as it is there, newest first. */
  ghost predicate NewestWanted(entries: seq<Entry>, table: seq<Entry>, user: UserId, q: Query) {
    && Descending(entries)
    && forall e :: multiset(entries)[e] == if Wanted(user, q, e.rec) then multiset(table)[e] else 0
  }

  function InOrder(table: seq<Entry>, user: UserId, q: Query): seq<Entry> {
    WantedOf(NewestFirst(table), user, q)
  }

  lemma InOrderIsNewestWanted(table: seq<Entry>, user: UserId, q: Query)
    ensures NewestWanted(InOrder(table, user, q), table, user, q) && History(table, user, q) == Records(InOrder(table, user, q))
  {
    NewestFirstOrders(table);
    WantedDescending(NewestFirst(table), user, q);
    WantedRecords(NewestFirst(table), user, q);
    forall e ensures multiset(InOrder(table, user, q))[e] == if Wanted(user, q, e.rec) then multiset(table)[e] else 0 {
      WantedCount(NewestFirst(table), user, q, e);
    }
  }

  /** The history is the wanted rows newest first, and the k-th page its records from (k - 1) * limit on. */
  lemma PageIsNewest(table: seq<Entry>, user: UserId, q: Query, k: int) returns (entries: seq<Entry>)
    requires k >= 1
    ensures NewestWanted(entries, table, user, q) && History(table, user, q) == Records(entries)
    ensures PageAsked(table, user, q, k).data == RecordsFrom(entries, SkipTo(k, SafeLimit(q.limit)), SafeLimit(q.limit))
  {
    entries := InOrder(table, user, q);
    InOrderIsNewestWanted(table, user, q);
    PageAskedIs(table, user, q, k);
    WindowOfRecords(entries, SkipTo(k, SafeLimit(q.limit)), SafeLimit(q.limit));
  }

  function RecordsFrom(entries: seq<Entry>, skip: nat, take: nat): seq<Record> {
    Records(entries[Min(skip, |entries|)..Min(skip + take, |entries|)])
  }

  lemma WindowOfRecords(entries: seq<Entry>, skip: nat, take: nat)
    ensures Window(Records(entries), skip, take) == RecordsFrom(entries, skip, take)
  {
    RecordsLength(entries);
    RecordsOfSlice(entries, Min(skip, |entries|), Min(skip + take, |entries|));
  }

  lemma {:induction false} RecordsLength(entries: seq<Entry>)
    ensures |Records(entries)| == |entries|
  {
    if entries != [] { RecordsLength(entries[1..]); }
  }

  lemma RecordsOfSlice(entries: seq<Entry>, low: nat, high: nat)
    requires low <= high <= |entries|
    ensures |Records(entries)| == |entries| && Records(entries[low..high]) == Records(entries)[low..high]
  {
    RecordsLength(entries[..low]);
    RecordsLength(entries[low..high]);
    RecordsLength(entries);
    RecordsOfConcat(entries[..low], entries[low..high]);
    RecordsOfConcat(entries[..high], entries[high..]);
    assert entries[..high] == entries[..low] + entries[low..high];
    assert entries == entries[..high] + entries[high..];
  }

  /** Of two records on pages of one, the newer is on page 1 and the older on page 2. */
  lemma NewerComesFirst(older: Record, newer: Record, user: UserId)
    requires older.user == user && newer.user == user
    ensures var q := Query(None, None, None, None, Some(1));
            var table := [Entry(older, 1), Entry(newer, 2)];
            && PageAsked(table, user, q, 1) == Page([newer], Meta(1, 1, 2, 2, true, false))
            && PageAsked(table, user, q, 2) == Page([older], Meta(2, 1, 2, 2, false, true))
  {
    var q := Query(None, None, None, None, Some(1));
    var table := [Entry(older, 1), Entry(newer, 2)];
    PageAskedIs(table, user, q, 1);
    PageAskedIs(table, user, q, 2);
    NewestOfTwo(Entry(older, 1), Entry(newer, 2));
    FilteredTwo(newer, older, user, q);
  }

  lemma NewestOfTwo(a: Entry, b: Entry)
    requires a.createdAt < b.createdAt
    ensures Listed([a, b]) == [b.rec, a.rec]
  {
    assert [a, b][..1] == [a] && [a][..0] == [];
    assert NewestFirst([a]) == [a];
    assert NewestFirst([a, b]) == [b] + [a];
    RecordsOfFirst(b, [a]);
    RecordsOfFirst(a, []);
  }

  lemma FilteredTwo(a: Record, b: Record, user: UserId, q: Query)
    requires Matches(user, q, a) && Matches(user, q, b)
    ensures Filtered([a, b], user, q) == [a, b]
  {
    assert [a, b][1..] == [b] && [b][1..] == [];
    assert Filtered([b], user, q) == [b];
    assert Filtered([a, b], user, q) == [a] + Filtered([b], user, q);
  }
}
