/** Paging through incidents with a cursor. */
module Pagination {
  import opened Basics
  import opened CycleCheck
  import opened Emission
  import opened Incidents

  /** The key of the last incident of a page. */
  datatype Cursor = Cursor(detectedAt: int, incidentId: string)

  /** What a client sends as cursor: text that does not decode, or an encoded
      key. Encoding and decoding text is taken to be a round trip. */
  datatype Token = Garbled | Token(cursor: Cursor)

  datatype Query = Query(status: Option<IncidentStatus>, limit: Option<int>, cursor: Option<Token>)

  datatype Page = Page(items: seq<Incident>, next: Option<Token>)

  const DEFAULT_LIMIT := 20
  const MAX_LIMIT := 100

  function LimitOf(q: Query): int {
    if q.limit.Some? then q.limit.value else DEFAULT_LIMIT
  }

  function KeyOf(i: Incident): Cursor {
    Cursor(i.detectedAt, i.incidentId)
  }

  /** `decodeCursor`: the zero instant and the empty id are refused too. */
  function DecodeCursor(t: Token): Option<Cursor> {
    if t.Token? && t.cursor.detectedAt != 0 && t.cursor.incidentId != "" then Some(t.cursor) else None
  }

  /** `a` is older than `b`: detected before it, or at the same instant with a
      smaller id. */
  predicate Older(a: Cursor, b: Cursor) {
    a.detectedAt < b.detectedAt || (a.detectedAt == b.detectedAt && StrLess(a.incidentId, b.incidentId))
  }

  /** The listing order, newest first. */
  predicate NewerFirst(a: Incident, b: Incident) {
    Older(KeyOf(b), KeyOf(a))
  }

  predicate HasStatus(i: Incident, status: Option<IncidentStatus>) {
    status.None? || i.status == status.value
  }

  predicate Past(i: Incident, cursor: Option<Cursor>) {
    cursor.None? || Older(KeyOf(i), cursor.value)
  }

  /** The incidents a query is about. */
  function Wanted(incidents: map<string, Incident>, status: Option<IncidentStatus>, cursor: Option<Cursor>): set<Incident> {
    set id | id in incidents && HasStatus(incidents[id], status) && Past(incidents[id], cursor) :: incidents[id]
  }

  /** `all` is the whole listing, newest first. */
  ghost predicate Listed(incidents: map<string, Incident>, status: Option<IncidentStatus>, cursor: Option<Cursor>,
                         all: seq<Incident>) {
    SortedBy(NewerFirst, all) && Enumerates(all, Wanted(incidents, status, cursor))
  }

  /** The first page of a listing. */
  function FirstPage(all: seq<Incident>, limit: int): Page
    requires limit >= 1
  {
    if |all| > limit then Page(all[..limit], Some(Token(KeyOf(all[limit - 1])))) else Page(all, None)
  }

  /** The answer to a query. */
  ghost predicate Answers(incidents: map<string, Incident>, q: Query, r: Result<Page, StoreError>) {
    if LimitOf(q) < 1 || LimitOf(q) > MAX_LIMIT then r == Failure(Conflict)
    else if q.cursor.None? then r.Success? && PageOf(incidents, q.status, None, LimitOf(q), r.value)
    else if DecodeCursor(q.cursor.value).None? then r == Failure(Conflict)
    else r.Success? && PageOf(incidents, q.status, DecodeCursor(q.cursor.value), LimitOf(q), r.value)
  }

  ghost predicate PageOf(incidents: map<string, Incident>, status: Option<IncidentStatus>, cursor: Option<Cursor>,
                         limit: int, page: Page) {
    limit >= 1 && exists all :: Listed(incidents, status, cursor, all) && page == FirstPage(all, limit)
  }

  // ----- the order -----

  lemma OlderTotal(a: Cursor, b: Cursor)
    ensures !(Older(a, b) && Older(b, a))
    ensures Older(a, b) || Older(b, a) || a == b
  {
    StrLessTotal(a.incidentId, b.incidentId);
  }

  lemma OlderTransitive(a: Cursor, b: Cursor, c: Cursor)
    requires Older(a, b) && Older(b, c)
    ensures Older(a, c)
  {
    if StrLess(a.incidentId, b.incidentId) && StrLess(b.incidentId, c.incidentId) {
      StrLessTransitive(a.incidentId, b.incidentId, c.incidentId);
    }
  }

  lemma NewerFirstStrictWeak(s: seq<Incident>)
    ensures StrictWeak(NewerFirst, s)
  {
    forall x: Incident, y: Incident, z: Incident
      ensures NewerFirst(x, y) ==> !NewerFirst(y, x)
      ensures !NewerFirst(y, x) && !NewerFirst(z, y) ==> !NewerFirst(z, x)
    {
      OlderTotal(KeyOf(x), KeyOf(y));
      OlderTotal(KeyOf(y), KeyOf(z));
      OlderTotal(KeyOf(x), KeyOf(z));
      if Older(KeyOf(z), KeyOf(y)) && Older(KeyOf(y), KeyOf(x)) {
        OlderTransitive(KeyOf(z), KeyOf(y), KeyOf(x));
      }
    }
  }

  /** Incidents are filed under their id. */
  ghost predicate Filed(incidents: map<string, Incident>) {
    forall id | id in incidents :: incidents[id].incidentId == id
  }

  /** In a sorted listing of filed incidents every later one is strictly older. */
  lemma StrictlyDescending(incidents: map<string, Incident>, status: Option<IncidentStatus>, cursor: Option<Cursor>,
                           all: seq<Incident>, i: nat, j: nat)
    requires Filed(incidents) && Listed(incidents, status, cursor, all) && i < j < |all|
    ensures Older(KeyOf(all[j]), KeyOf(all[i]))
  {
    assert all[i] in all && all[j] in all;
    OlderTotal(KeyOf(all[i]), KeyOf(all[j]));
  }

  /** There is only one listing, whatever order the map is iterated in. */
  lemma ListingUnique(incidents: map<string, Incident>, status: Option<IncidentStatus>, cursor: Option<Cursor>,
                      a: seq<Incident>, b: seq<Incident>)
    requires Filed(incidents) && Listed(incidents, status, cursor, a) && Listed(incidents, status, cursor, b)
    ensures a == b
  {
    EnumerationsAgree(a, b, Wanted(incidents, status, cursor));
    forall x, y | x in a && y in a && x != y ensures NewerFirst(x, y) || NewerFirst(y, x) {
      OlderTotal(KeyOf(x), KeyOf(y));
    }
    SortedUnique(NewerFirst, a, b);
  }

  // ----- the row loop -----

  /** The database version asks for one row more than the limit and reads rows
      until the page is full. */
  method ReadRows(rows: seq<Incident>, limit: int) returns (page: Page)
    requires limit >= 1
    ensures page == FirstPage(rows, limit)
  {
    var items: seq<Incident> := [];
    var last := Cursor(0, "");
    for i := 0 to |rows|
      invariant i <= limit && items == rows[..i]
      invariant i > 0 ==> last == KeyOf(rows[i - 1])
    {
      if |items| == limit {
        return Page(items, Some(Token(last)));
      }
      items := items + [rows[i]];
      last := KeyOf(rows[i]);
    }
    return Page(items, None);
  }

  /** That one extra row is all it takes. */
  lemma OneRowMore(all: seq<Incident>, limit: int)
    requires limit >= 1
    ensures FirstPage(if |all| > limit + 1 then all[..limit + 1] else all, limit) == FirstPage(all, limit)
  {
    if |all| > limit + 1 {
      assert all[..limit + 1][..limit] == all[..limit];
    }
  }

  // ----- following the cursor -----

  /** One request of a walk: the incidents stored at that time, the limit asked
      for, and the page served. */
  datatype Fetch = Fetch(incidents: map<string, Incident>, limit: Option<int>, page: Page)

  function CursorAt(walk: seq<Fetch>, k: nat): Option<Token>
    requires k <= |walk|
  {
    if k == 0 then None else walk[k - 1].page.next
  }

  /** Incidents may be stored between two requests, never removed. */
  ghost predicate Growing(walk: seq<Fetch>) {
    forall j, k, id | 0 <= j < k < |walk| && id in walk[j].incidents ::
      id in walk[k].incidents && walk[k].incidents[id] == walk[j].incidents[id]
  }

  /** Request `k` follows the cursor of the one before and is answered. */
  ghost predicate Served(status: Option<IncidentStatus>, walk: seq<Fetch>, k: nat) {
    && k < |walk| && Filed(walk[k].incidents)
    && (k > 0 ==> CursorAt(walk, k).Some?)
    && Answers(walk[k].incidents, Query(status, walk[k].limit, CursorAt(walk, k)), Success(walk[k].page))
  }

  ghost predicate Walk(status: Option<IncidentStatus>, walk: seq<Fetch>) {
    Growing(walk) && forall k: nat | k < |walk| :: Served(status, walk, k)
  }

  function Items(walk: seq<Fetch>): seq<Incident> {
    if |walk| == 0 then [] else Items(walk[..|walk| - 1]) + walk[|walk| - 1].page.items
  }

  ghost predicate Descending(items: seq<Incident>) {
    forall i, j | 0 <= i < j < |items| :: Older(KeyOf(items[j]), KeyOf(items[i]))
  }

  /** What a page holds: a strictly descending run of wanted incidents; what it
      leaves out is older than its cursor, and its cursor is its last key. */
  lemma PageContents(incidents: map<string, Incident>, status: Option<IncidentStatus>, cursor: Option<Cursor>,
                     limit: int, page: Page)
    requires Filed(incidents) && PageOf(incidents, status, cursor, limit, page)
    ensures Descending(page.items) && forall i | i in page.items :: i in Wanted(incidents, status, cursor)
    ensures forall i | i in Wanted(incidents, status, cursor) && i !in page.items ::
              page.next.Some? && page.next.value.Token? && Older(KeyOf(i), page.next.value.cursor)
    ensures page.next.Some? ==> |page.items| == limit && page.next.value == Token(KeyOf(page.items[limit - 1]))
    ensures |page.items| <= limit
  {
    var all :| Listed(incidents, status, cursor, all) && page == FirstPage(all, limit);
    forall i, j | 0 <= i < j < |all| ensures Older(KeyOf(all[j]), KeyOf(all[i])) {
      StrictlyDescending(incidents, status, cursor, all, i, j);
    }
    forall i | i in Wanted(incidents, status, cursor) && i !in page.items
      ensures page.next.Some? && page.next.value.Token? && Older(KeyOf(i), page.next.value.cursor)
    {
      assert i in all;
      var k :| 0 <= k < |all| && all[k] == i;
      if k < limit {
        assert page.items[k] == i;
      }
    }
  }

  /** The newest incident comes first; at one instant the larger id does. */
  predicate NewestFirst(items: seq<Incident>) {
    forall i, j | 0 <= i < j < |items| ::
      || items[j].detectedAt < items[i].detectedAt
      || (items[j].detectedAt == items[i].detectedAt && StrLess(items[j].incidentId, items[i].incidentId))
  }

  /** All are older than the cursor, or as old with a smaller id. */
  predicate AllPast(items: seq<Incident>, cursor: Cursor) {
    forall i | i in items ::
      || i.detectedAt < cursor.detectedAt
      || (i.detectedAt == cursor.detectedAt && StrLess(i.incidentId, cursor.incidentId))
  }

  /** In a page the newest comes first, and with a cursor all lie past it. */
  lemma PageNewestFirst(incidents: map<string, Incident>, status: Option<IncidentStatus>, cursor: Option<Cursor>,
                        limit: int, page: Page)
    requires Filed(incidents) && PageOf(incidents, status, cursor, limit, page)
    ensures NewestFirst(page.items) && |page.items| <= limit
    ensures cursor.Some? ==> AllPast(page.items, cursor.value)
    ensures page.next.Some? ==> page.next == Some(Token(Cursor(page.items[limit - 1].detectedAt, page.items[limit - 1].incidentId)))
    ensures forall i | i in page.items :: (status.Some? ==> i.status == status.value) && i.incidentId in incidents &&
                                          incidents[i.incidentId] == i
    ensures forall id | id in incidents && incidents[id] !in page.items
              && (status.Some? ==> incidents[id].status == status.value)
              && (cursor.Some? ==> AllPast([incidents[id]], cursor.value)) ::
              page.next.Some? && page.next.value.Token? && AllPast([incidents[id]], page.next.value.cursor)
  {
    PageContents(incidents, status, cursor, limit, page);
    DescendingNewestFirst(page.items);
    forall id | id in incidents && incidents[id] !in page.items
      && (status.Some? ==> incidents[id].status == status.value)
      && (cursor.Some? ==> AllPast([incidents[id]], cursor.value))
      ensures page.next.Some? && page.next.value.Token? && AllPast([incidents[id]], page.next.value.cursor)
    {
      assert incidents[id] in [incidents[id]];
      assert incidents[id] in Wanted(incidents, status, cursor);
    }
  }

  lemma DescendingNewestFirst(items: seq<Incident>)
    requires Descending(items)
    ensures NewestFirst(items)
  {
  }

  /** How far a walk has come: what is still missing of the first request's
      incidents lies beyond the cursor, and nothing served does. */
  ghost predicate Halfway(status: Option<IncidentStatus>, first: map<string, Incident>, items: seq<Incident>,
                          next: Option<Token>) {
    && Descending(items)
    && (forall i | i in Wanted(first, status, None) && i !in items ::
          next.Some? && next.value.Token? && Older(KeyOf(i), next.value.cursor))
    && (next.Some? ==> next.value.Token? && forall i | i in items :: !Older(KeyOf(i), next.value.cursor))
  }

  lemma NextPage(status: Option<IncidentStatus>, first: map<string, Incident>, items: seq<Incident>, cursor: Cursor,
                 incidents: map<string, Incident>, limit: int, page: Page)
    requires Halfway(status, first, items, Some(Token(cursor)))
    requires Filed(incidents) && PageOf(incidents, status, Some(cursor), limit, page)
    requires forall id | id in first :: id in incidents && incidents[id] == first[id]
    ensures Halfway(status, first, items + page.items, page.next)
  {
    PageContents(incidents, status, Some(cursor), limit, page);
    var longer := items + page.items;
    forall i, j | 0 <= i < j < |longer| ensures Older(KeyOf(longer[j]), KeyOf(longer[i])) {
      if i < |items| <= j {
        assert longer[j] in page.items && longer[i] in items;
        OlderThrough(KeyOf(longer[j]), cursor, KeyOf(longer[i]));
      }
    }
    forall i | i in Wanted(first, status, None) && i !in longer
      ensures page.next.Some? && page.next.value.Token? && Older(KeyOf(i), page.next.value.cursor)
    {
      assert i !in items && i !in page.items;
      StillWanted(first, incidents, status, cursor, i);
    }
    if page.next.Some? {
      assert page.items[limit - 1] in page.items;
      ServedNotBeyond(items, cursor, page.items, page.next.value.cursor);
    }
  }

  lemma StillWanted(first: map<string, Incident>, incidents: map<string, Incident>, status: Option<IncidentStatus>,
                    cursor: Cursor, i: Incident)
    requires i in Wanted(first, status, None) && Older(KeyOf(i), cursor)
    requires forall id | id in first :: id in incidents && incidents[id] == first[id]
    ensures i in Wanted(incidents, status, Some(cursor))
  {
    var id :| id in first && HasStatus(first[id], status) && first[id] == i;
    assert id in incidents && incidents[id] == i;
  }

  lemma OlderThrough(a: Cursor, b: Cursor, c: Cursor)
    requires Older(a, b) && !Older(c, b)
    ensures Older(a, c)
  {
    OlderTotal(b, c);
    if b != c {
      OlderTransitive(a, b, c);
    }
  }

  lemma ServedNotBeyond(items: seq<Incident>, cursor: Cursor, page: seq<Incident>, next: Cursor)
    requires forall i | i in items :: !Older(KeyOf(i), cursor)
    requires Descending(page) && |page| > 0 && next == KeyOf(page[|page| - 1]) && Older(next, cursor)
    ensures forall i | i in items + page :: !Older(KeyOf(i), next)
  {
    forall i | i in items + page ensures !Older(KeyOf(i), next) {
      if i in items {
        OlderThrough(next, cursor, KeyOf(i));
        OlderTotal(next, KeyOf(i));
      } else {
        var k :| 0 <= k < |page| && page[k] == i;
        OlderTotal(KeyOf(i), next);
      }
    }
  }

  lemma FirstFetch(status: Option<IncidentStatus>, incidents: map<string, Incident>, limit: int, page: Page)
    requires Filed(incidents) && PageOf(incidents, status, None, limit, page)
    ensures Halfway(status, incidents, page.items, page.next)
  {
    PageContents(incidents, status, None, limit, page);
    if page.next.Some? {
      forall i | i in page.items ensures !Older(KeyOf(i), page.next.value.cursor) {
        var k :| 0 <= k < |page.items| && page.items[k] == i;
        OlderTotal(KeyOf(i), page.next.value.cursor);
      }
    }
  }

  function DecodedAt(walk: seq<Fetch>, k: nat): Option<Cursor>
    requires k <= |walk|
  {
    if CursorAt(walk, k).Some? then DecodeCursor(CursorAt(walk, k).value) else None
  }

  lemma PageAt(status: Option<IncidentStatus>, walk: seq<Fetch>, k: nat)
    requires Walk(status, walk) && k < |walk|
    ensures Filed(walk[k].incidents)
    ensures k > 0 ==> CursorAt(walk, k).Some? && CursorAt(walk, k).value.Token? &&
                      DecodedAt(walk, k) == Some(CursorAt(walk, k).value.cursor)
    ensures PageOf(walk[k].incidents, status, DecodedAt(walk, k), LimitOf(Query(status, walk[k].limit, None)), walk[k].page)
  {
    assert Served(status, walk, k);
  }

  lemma WalkPrefix(status: Option<IncidentStatus>, walk: seq<Fetch>, n: nat)
    requires Walk(status, walk) && n <= |walk|
    ensures Walk(status, walk[..n])
  {
    forall k: nat | k < n ensures Served(status, walk[..n], k) {
      assert Served(status, walk, k);
      assert CursorAt(walk[..n], k) == CursorAt(walk, k);
    }
  }

  lemma {:induction false} WalkHalfway(status: Option<IncidentStatus>, walk: seq<Fetch>)
    requires Walk(status, walk) && |walk| > 0
    ensures Halfway(status, walk[0].incidents, Items(walk), walk[|walk| - 1].page.next)
    decreases |walk|
  {
    var n: nat := |walk| - 1;
    var last := walk[n];
    var limit := LimitOf(Query(status, last.limit, None));
    PageAt(status, walk, n);
    if n == 0 {
      assert Items(walk) == last.page.items;
      FirstFetch(status, last.incidents, limit, last.page);
    } else {
      WalkPrefix(status, walk, n);
      WalkHalfway(status, walk[..n]);
      var token := CursorAt(walk, n).value;
      NextPage(status, walk[0].incidents, Items(walk[..n]), token.cursor, last.incidents, limit, last.page);
    }
  }

  /** Following the cursor never serves an incident twice, serves strictly
      descending keys, and once it ends has served every matching incident that
      was there from the start, although others may have been stored in between. */
  lemma WalkComplete(status: Option<IncidentStatus>, walk: seq<Fetch>)
    requires Walk(status, walk) && |walk| > 0
    ensures Descending(Items(walk)) && NewestFirst(Items(walk)) && Distinct(Items(walk))
    ensures walk[|walk| - 1].page.next.None? ==>
              forall id | id in walk[0].incidents && HasStatus(walk[0].incidents[id], status) ::
                walk[0].incidents[id] in Items(walk)
  {
    WalkHalfway(status, walk);
    var items := Items(walk);
    forall i, j | 0 <= i < j < |items| ensures items[i] != items[j] {
      OlderTotal(KeyOf(items[j]), KeyOf(items[i]));
    }
    forall id | id in walk[0].incidents && HasStatus(walk[0].incidents[id], status)
      && walk[|walk| - 1].page.next.None?
      ensures walk[0].incidents[id] in items
    {
      assert walk[0].incidents[id] in Wanted(walk[0].incidents, status, None);
    }
  }

  /** And it serves nothing but matching incidents stored at the time. */
  lemma {:induction false} WalkServesStored(status: Option<IncidentStatus>, walk: seq<Fetch>, i: Incident)
    requires Walk(status, walk) && i in Items(walk)
    ensures HasStatus(i, status) && i.incidentId in walk[|walk| - 1].incidents &&
            walk[|walk| - 1].incidents[i.incidentId] == i
    decreases |walk|
  {
    var n: nat := |walk| - 1;
    var last := walk[n];
    PageAt(status, walk, n);
    if i in last.page.items {
      PageContents(last.incidents, status, DecodedAt(walk, n), LimitOf(Query(status, last.limit, None)), last.page);
    } else {
      var init := walk[..n];
      WalkPrefix(status, walk, n);
      assert i in Items(init);
      WalkServesStored(status, init, i);
      assert walk[n - 1] == init[|init| - 1];
    }
  }

  /** The next request of a walk is answered exactly when the page did not end
      on an incident detected at the zero instant. */
  lemma NextAccepted(incidents: map<string, Incident>, status: Option<IncidentStatus>, cursor: Option<Cursor>,
                     limit: int, page: Page, later: map<string, Incident>, again: int, r: Result<Page, StoreError>)
    requires Filed(incidents) && "" !in incidents && PageOf(incidents, status, cursor, limit, page) && page.next.Some?
    requires 1 <= again <= MAX_LIMIT && Answers(later, Query(status, Some(again), page.next), r)
    ensures r.Success? <==> page.items[|page.items| - 1].detectedAt != 0
  {
    PageContents(incidents, status, cursor, limit, page);
    var last := page.items[|page.items| - 1];
    assert last in Wanted(incidents, status, cursor);
  }

  function AtZero(id: string): Incident {
    Incident(id, IncidentReady, "trace-1", "exec-1", 0, ["evt-1"], "graph-1", true, false, true)
  }

  /** Such a page exists: with two valid incidents at the zero instant and pages
      of one, the cursor the first page hands out is always refused. */
  lemma CursorRefused() returns (incidents: map<string, Incident>, page: Page)
    ensures Filed(incidents) && forall id | id in incidents :: incidents[id].Valid()
    ensures PageOf(incidents, None, None, 1, page) && page.next.Some?
    ensures forall later, r | Answers(later, Query(None, Some(1), page.next), r) :: r == Failure(Conflict)
  {
    var a, b := AtZero("inc-a"), AtZero("inc-b");
    incidents := map["inc-a" := a, "inc-b" := b];
    assert a.incidentId[4] != b.incidentId[4];
    ZeroOrder();
    assert "inc-a" in incidents && "inc-b" in incidents;
    assert Wanted(incidents, None, None) == {a, b};
    assert Listed(incidents, None, None, [b, a]);
    page := FirstPage([b, a], 1);
  }

  lemma ZeroOrder()
    ensures Older(KeyOf(AtZero("inc-a")), KeyOf(AtZero("inc-b"))) && !Older(KeyOf(AtZero("inc-b")), KeyOf(AtZero("inc-a")))
  {
    StrLessPrefix("inc-", "a", "b");
    assert "inc-" + "a" == "inc-a" && "inc-" + "b" == "inc-b";
    OlderTotal(KeyOf(AtZero("inc-a")), KeyOf(AtZero("inc-b")));
  }
}
