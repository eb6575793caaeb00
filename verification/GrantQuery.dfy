// Listing grants page by page, newest first.
module GrantQuery {
  import opened Options
  import opened Text
  import opened Sorting
  import opened GrantData
  import Ops = GrantOperations

  datatype Group = PendingGroup | ActiveGroup | HistoryGroup | AllGroup

  datatype Target = Target(kind: string, fields: map<string, seq<string>>)

  datatype Query = Query(group: Group, client: string, operation: string, target: Option<Target>, limit: nat)

  // A position in the list, bound to the query it was issued for.
  datatype Cursor = Cursor(createdAt: Time, id: string, query: Query)

  datatype Page = Page(grants: seq<Grant>, next: Option<Cursor>, hasMore: bool)

  const DEFAULT_LIMIT := 50
  const MAX_LIMIT := 100

  // A query as it is asked, with absent parts left empty.
  datatype RawQuery = RawQuery(group: string, client: string, operation: string, target: Option<Target>, limit: int)

  function GroupOf(text: string): Option<Group> {
    if text == "pending" then Some(PendingGroup)
    else if text == "active" then Some(ActiveGroup)
    else if text == "history" then Some(HistoryGroup)
    else if text == "all" || text == "" then Some(AllGroup)
    else None
  }

  predicate ValidTarget(target: Option<Target>) {
    target.Some? ==> !Blank(target.value.kind) && ValidValueMap(target.value.fields)
  }

  function TidyTarget(target: Option<Target>): Option<Target> {
    match target
    case None => None
    case Some(t) => Some(t.(fields := Ops.CanonicalValues(t.fields)))
  }

  // An absent group is every status and an absent limit the default one; a cursor is refused for any
  // other query.
  function NormalQuery(raw: RawQuery, cursor: Option<Cursor>): Option<Query> {
    var limit := if raw.limit == 0 then DEFAULT_LIMIT else raw.limit;
    if GroupOf(raw.group).None? || limit < 1 || limit > MAX_LIMIT || !ValidTarget(raw.target) then None
    else
      var normal := Query(GroupOf(raw.group).value, raw.client, raw.operation, TidyTarget(raw.target), limit);
      if cursor.Some? && cursor.value.query != normal then None else Some(normal)
  }

  predicate MatchesStatus(status: Status, group: Group) {
    match group
    case PendingGroup => status == Pending
    case ActiveGroup => status == Active
    case HistoryGroup => status != Pending && status != Active
    case AllGroup => true
  }

  function FieldValues(fields: map<string, seq<string>>, key: string): seq<string> {
    if key in fields then fields[key] else []
  }

  predicate MatchesTarget(subject: Subject, target: Target) {
    subject.kind == target.kind && forall key :: key in target.fields ==> FieldValues(subject.fields, key) == target.fields[key]
  }

  predicate MatchesQuery(grant: Grant, query: Query) {
    && (query.client == "" || grant.subject.client == query.client)
    && (query.operation == "" || grant.subject.operation == query.operation)
    && (query.target.Some? ==> MatchesTarget(grant.subject, query.target.value))
    && MatchesStatus(grant.status, query.group)
  }

  predicate NewestFirst(a: Grant, b: Grant) {
    a.createdAt > b.createdAt || (a.createdAt == b.createdAt && TextLeq(b.id, a.id))
  }

  predicate BeforeCursor(grant: Grant, cursor: Option<Cursor>) {
    || cursor.None? || grant.createdAt < cursor.value.createdAt
    || (grant.createdAt == cursor.value.createdAt && TextLeq(grant.id, cursor.value.id) && grant.id != cursor.value.id)
  }

  predicate Listed(grant: Grant, query: Query, cursor: Option<Cursor>) {
    MatchesQuery(grant, query) && BeforeCursor(grant, cursor)
  }

  function Filtered(grants: seq<Grant>, query: Query, cursor: Option<Cursor>): seq<Grant> {
    if grants == [] then []
    else
      var last := grants[|grants| - 1];
      Filtered(grants[..|grants| - 1], query, cursor) + if Listed(last, query, cursor) then [last] else []
  }

  function CursorOf(grant: Grant, query: Query): Cursor { Cursor(grant.createdAt, grant.id, query) }

  // The whole list from a cursor on.
  function Listing(grants: seq<Grant>, query: Query, cursor: Option<Cursor>): seq<Grant> {
    Sort(Filtered(grants, query, cursor), NewestFirst)
  }

  function PageOf(listing: seq<Grant>, query: Query): Page
    requires query.limit > 0
  {
    var shown := if |listing| > query.limit then listing[..query.limit] else listing;
    Page(shown, if shown == [] then None else Some(CursorOf(shown[|shown| - 1], query)), |listing| > query.limit)
  }

  method BuildGrantPage(grants: seq<Grant>, query: Query, cursor: Option<Cursor>) returns (page: Page)
    requires query.limit > 0
    ensures page == PageOf(Listing(grants, query, cursor), query)
  {
    var filtered: seq<Grant> := [];
    assert grants[..0] == [];
    hide MatchesQuery, BeforeCursor, Sort;
    for i := 0 to |grants|
      invariant filtered == Filtered(grants[..i], query, cursor)
    {
      assert grants[..i + 1][..i] == grants[..i];
      if MatchesQuery(grants[i], query) && BeforeCursor(grants[i], cursor) {
        filtered := filtered + [grants[i]];
      }
    }
    assert grants[..|grants|] == grants;
    filtered := Sort(filtered, NewestFirst);
    var hasMore := |filtered| > query.limit;
    if hasMore {
      filtered := filtered[..query.limit];
    }
    page := Page(filtered, None, hasMore);
    if |filtered| > 0 {
      page := page.(next := Some(CursorOf(filtered[|filtered| - 1], query)));
    }
  }

  // --- The question and its normal form.

  // A query finds a stored grant exactly if the grant has what the query asks for: the values of each
  // field are compared as sets, whatever order and repetition the query lists them in.
  ghost predicate Answers(grant: Grant, raw: RawQuery) {
    && (raw.client == "" || grant.subject.client == raw.client)
    && (raw.operation == "" || grant.subject.operation == raw.operation)
    && (raw.target.Some? ==>
          && grant.subject.kind == raw.target.value.kind
          && forall key :: key in raw.target.value.fields ==>
               SameElements(FieldValues(grant.subject.fields, key), raw.target.value.fields[key]))
    && match raw.group
       case "pending" => grant.status == Pending
       case "active" => grant.status == Active
       case "history" => grant.status != Pending && grant.status != Active
       case _ => true
  }

  lemma NormalQueryMeans(raw: RawQuery, cursor: Option<Cursor>, grant: Grant)
    requires Ops.CanonicalValues(grant.subject.fields) == grant.subject.fields
    ensures var normal := NormalQuery(raw, cursor);
            && (normal.None? <==>
                  || raw.group !in ["", "pending", "active", "history", "all"] || !(0 <= raw.limit <= MAX_LIMIT)
                  || !ValidTarget(raw.target)
                  || (cursor.Some? && NormalQuery(raw, None) != Some(cursor.value.query)))
            && (normal.Some? ==>
                  && 1 <= normal.value.limit <= MAX_LIMIT && (cursor.Some? ==> cursor.value.query == normal.value)
                  && (MatchesQuery(grant, normal.value) <==> Answers(grant, raw)))
  {
    hide Ops.CanonicalValues, SameElements, ValidValueMap, Blank;
    if raw.target.Some? {
      forall key | key in raw.target.value.fields
        ensures FieldValues(grant.subject.fields, key) == Ops.CanonicalValues(raw.target.value.fields)[key]
                <==> SameElements(FieldValues(grant.subject.fields, key), raw.target.value.fields[key])
      {
        FieldComparison(grant.subject.fields, raw.target.value.fields, key);
      }
    }
  }

  lemma FieldComparison(stored: map<string, seq<string>>, asked: map<string, seq<string>>, key: string)
    requires Ops.CanonicalValues(stored) == stored && key in asked
    ensures FieldValues(stored, key) == Ops.CanonicalValues(asked)[key] <==> SameElements(FieldValues(stored, key), asked[key])
  {
    hide Canonical, SameElements;
    var values := FieldValues(stored, key);
    assert Canonical(values) == values by {
      if key in stored {
        assert Ops.CanonicalValues(stored)[key] == values;
      } else {
        NothingIsCanonical();
      }
    }
    CanonicalAgrees(values, asked[key]);
  }

  lemma NothingIsCanonical()
    ensures Canonical([]) == []
  {
  }

  // --- The order.

  lemma NewestFirstIsTotal()
    ensures TotalOrder(NewestFirst)
  {
    forall a, b ensures NewestFirst(a, b) || NewestFirst(b, a) { TextIsTotal(a.id, b.id); }
    forall a, b, c | NewestFirst(a, b) && NewestFirst(b, c) ensures NewestFirst(a, c) {
      if a.createdAt == b.createdAt == c.createdAt {
        TextIsTransitive(c.id, b.id, a.id);
      }
    }
  }

  lemma NewestFirstSeparates(s: seq<Grant>)
    requires DistinctGrants(s)
    ensures Separates(NewestFirst, s)
  {
    forall a, b | a in s && b in s && NewestFirst(a, b) && NewestFirst(b, a) ensures a == b {
      TextIsAntisymmetric(a.id, b.id);
      var i :| 0 <= i < |s| && s[i] == a;
      var j :| 0 <= j < |s| && s[j] == b;
    }
  }

  // After the cursor of one grant come exactly the grants that follow it.
  lemma BeforeCursorOf(grant: Grant, last: Grant, query: Query)
    ensures BeforeCursor(grant, Some(CursorOf(last, query))) <==> NewestFirst(last, grant) && !NewestFirst(grant, last)
  {
    if grant.createdAt == last.createdAt {
      TextIsTotal(grant.id, last.id);
      if TextLeq(grant.id, last.id) && TextLeq(last.id, grant.id) {
        TextIsAntisymmetric(grant.id, last.id);
      }
    }
  }

  // --- The listing.

  lemma {:induction false} FilteredMembers(grants: seq<Grant>, query: Query, cursor: Option<Cursor>, grant: Grant)
    ensures grant in Filtered(grants, query, cursor) <==> grant in grants && Listed(grant, query, cursor)
  {
    hide Listed;
    if grants != [] {
      var last := |grants| - 1;
      FilteredMembers(grants[..last], query, cursor, grant);
      assert grants == grants[..last] + [grants[last]];
    }
  }

  lemma {:induction false} FilteredDistinct(grants: seq<Grant>, query: Query, cursor: Option<Cursor>)
    requires DistinctGrants(grants)
    ensures DistinctGrants(Filtered(grants, query, cursor))
  {
    hide Listed;
    if grants != [] {
      var last := |grants| - 1;
      var rest := Filtered(grants[..last], query, cursor);
      FilteredDistinct(grants[..last], query, cursor);
      forall i | 0 <= i < |rest| ensures rest[i].id != grants[last].id {
        FilteredMembers(grants[..last], query, cursor, rest[i]);
      }
    }
  }

  lemma DistinctByIds(s: seq<Grant>)
    requires DistinctGrants(s)
    ensures Distinct(s)
  {
  }

  // The listing holds the matching grants, each once, newest first.
  lemma ListingMeans(grants: seq<Grant>, query: Query, cursor: Option<Cursor>)
    requires DistinctGrants(grants)
    ensures var listing := Listing(grants, query, cursor);
            && SortedBy(listing, NewestFirst) && DistinctGrants(listing)
            && forall grant :: grant in listing <==> grant in grants && Listed(grant, query, cursor)
  {
    hide Listed, NewestFirst, Sort;
    var filtered, listing := Filtered(grants, query, cursor), Listing(grants, query, cursor);
    NewestFirstIsTotal();
    SortSorts(filtered, NewestFirst);
    SortPermutes(filtered, NewestFirst);
    FilteredDistinct(grants, query, cursor);
    forall grant ensures grant in listing <==> grant in grants && Listed(grant, query, cursor) {
      SortMembers(filtered, NewestFirst, grant);
      FilteredMembers(grants, query, cursor, grant);
    }
    PermutedGrantsDistinct(filtered, listing);
  }

  lemma PermutedGrantsDistinct(a: seq<Grant>, b: seq<Grant>)
    requires DistinctGrants(a) && multiset(a) == multiset(b)
    ensures DistinctGrants(b)
  {
    DistinctByIds(a);
    PermutationIsDistinct(a, b);
    forall i, j | 0 <= i < j < |b| ensures b[i].id != b[j].id {
      assert b[i] in multiset(a) && b[j] in multiset(a);
      var k :| 0 <= k < |a| && a[k] == b[i];
      var l :| 0 <= l < |a| && a[l] == b[j];
    }
  }

  lemma ListingIsUnique(grants: seq<Grant>, query: Query, cursor: Option<Cursor>, listing: seq<Grant>)
    requires DistinctGrants(grants) && SortedBy(listing, NewestFirst) && DistinctGrants(listing)
    requires forall grant :: grant in listing <==> grant in grants && Listed(grant, query, cursor)
    ensures Listing(grants, query, cursor) == listing
  {
    hide Listed, NewestFirst, Listing;
    var own := Listing(grants, query, cursor);
    ListingMeans(grants, query, cursor);
    NewestFirstIsTotal();
    NewestFirstSeparates(own);
    DistinctByIds(own);
    DistinctByIds(listing);
    DistinctPermutes(own, listing);
    SortedIsUnique(own, listing, NewestFirst);
  }

  // In the sorted listing, the grants past the m-th are those that strictly follow it.
  lemma PastMeans(listing: seq<Grant>, m: nat, grant: Grant)
    requires SortedBy(listing, NewestFirst) && DistinctGrants(listing) && 0 < m <= |listing| && grant in listing
    ensures grant in listing[m..] <==> NewestFirst(listing[m - 1], grant) && !NewestFirst(grant, listing[m - 1])
  {
    var i :| 0 <= i < |listing| && listing[i] == grant;
    NewestFirstSeparates(listing);
    assert NewestFirst(grant, grant) by { TextIsTotal(grant.id, grant.id); }
    hide NewestFirst;
    if i >= m {
      assert grant == listing[m..][i - m];
    } else {
      forall j | 0 <= j < |listing[m..]| ensures listing[m..][j] != grant {
        assert listing[m + j].id != listing[i].id;
      }
    }
  }

  lemma RestOfListing(grants: seq<Grant>, query: Query, cursor: Option<Cursor>, m: nat)
    requires DistinctGrants(grants) && 0 < m <= |Listing(grants, query, cursor)|
    ensures var listing := Listing(grants, query, cursor);
            Listing(grants, query, Some(CursorOf(listing[m - 1], query))) == listing[m..]
  {
    hide MatchesQuery, NewestFirst, Listing;
    var listing := Listing(grants, query, cursor);
    ListingMeans(grants, query, cursor);
    var next, rest := Some(CursorOf(listing[m - 1], query)), listing[m..];
    assert listing == listing[..m] + rest;
    forall grant ensures grant in rest <==> grant in grants && Listed(grant, query, next) {
      BeforeCursorOf(grant, listing[m - 1], query);
      if grant in listing {
        PastMeans(listing, m, grant);
      } else if Listed(grant, query, next) && grant in grants {
        assert listing[m - 1] in listing;
        FollowsWithin(grant, listing[m - 1], query, cursor);
      }
    }
    ListingIsUnique(grants, query, next, rest);
  }

  // What follows a listed grant is before the same cursor.
  lemma FollowsWithin(grant: Grant, last: Grant, query: Query, cursor: Option<Cursor>)
    requires BeforeCursor(last, cursor) && NewestFirst(last, grant)
    ensures BeforeCursor(grant, cursor)
  {
    if cursor.Some? && grant.createdAt == last.createdAt == cursor.value.createdAt {
      TextIsTransitive(grant.id, last.id, cursor.value.id);
      if grant.id == cursor.value.id {
        TextIsAntisymmetric(grant.id, last.id);
      }
    }
  }

  // --- Following the cursors.

  // The pages of a store that does not change.
  function Pages(grants: seq<Grant>, query: Query, cursor: Option<Cursor>, fuel: nat): seq<Page>
    requires query.limit > 0
    decreases fuel
  {
    var page := PageOf(Listing(grants, query, cursor), query);
    if page.hasMore && fuel > 0 then [page] + Pages(grants, query, page.next, fuel - 1) else [page]
  }

  function Joined(pages: seq<Page>): seq<Grant> {
    if pages == [] then [] else pages[0].grants + Joined(pages[1..])
  }

  // On a fixed store the pages join to the whole filtered list, newest first, and the last page says
  // that it is the last; as many pages suffice as there are listed grants.
  lemma {:induction false} PagesJoin(grants: seq<Grant>, query: Query, cursor: Option<Cursor>, fuel: nat)
    requires DistinctGrants(grants) && query.limit > 0 && |Listing(grants, query, cursor)| <= fuel
    ensures var pages := Pages(grants, query, cursor, fuel);
            Joined(pages) == Listing(grants, query, cursor) && !pages[|pages| - 1].hasMore
    decreases fuel
  {
    hide Listing, PageOf, DistinctGrants;
    var listing := Listing(grants, query, cursor);
    var page := PageOf(listing, query);
    PageStarts(listing, query);
    if page.hasMore {
      RestOfListing(grants, query, cursor, query.limit);
      PagesJoin(grants, query, page.next, fuel - 1);
      JoinedStep(page, Pages(grants, query, page.next, fuel - 1));
    } else {
      JoinedStep(page, []);
      assert [page] + [] == [page];
    }
  }

  lemma PageStarts(listing: seq<Grant>, query: Query)
    requires query.limit > 0
    ensures var page := PageOf(listing, query);
            if page.hasMore then
              && query.limit < |listing| && page.next == Some(CursorOf(listing[query.limit - 1], query))
              && page.grants + listing[query.limit..] == listing
            else page.grants == listing
  {
  }

  lemma JoinedStep(page: Page, rest: seq<Page>)
    ensures Joined([page] + rest) == page.grants + Joined(rest)
    ensures rest == [] ==> Joined(rest) == []
  {
    assert ([page] + rest)[1..] == rest;
  }

  // The pages of a store that changes between the visits.
  function Visits(stores: seq<seq<Grant>>, query: Query, cursor: Option<Cursor>): seq<Page>
    requires query.limit > 0
    decreases |stores|
  {
    if stores == [] then []
    else
      var page := PageOf(Listing(stores[0], query, cursor), query);
      [page] + if page.hasMore then Visits(stores[1..], query, page.next) else []
  }

  predicate Shows(page: Page, id: string) { exists i :: 0 <= i < |page.grants| && page.grants[i].id == id }

  function TimesShown(pages: seq<Page>, id: string): nat {
    if pages == [] then 0 else (if Shows(pages[0], id) then 1 else 0) + TimesShown(pages[1..], id)
  }

  ghost predicate Holds(grants: seq<Grant>, query: Query, id: string, createdAt: Time) {
    && DistinctGrants(grants)
    && exists i :: 0 <= i < |grants| && grants[i].id == id && grants[i].createdAt == createdAt && MatchesQuery(grants[i], query)
  }

  // The grant is in every store, with the same identity and creation time, and matches the query.
  ghost predicate Throughout(stores: seq<seq<Grant>>, query: Query, id: string, createdAt: Time) {
    forall k :: 0 <= k < |stores| ==> Holds(stores[k], query, id, createdAt)
  }

  lemma StoredMember(stores: seq<seq<Grant>>, query: Query, id: string, createdAt: Time) returns (grant: Grant)
    requires Throughout(stores, query, id, createdAt) && stores != []
    ensures grant in stores[0] && grant.id == id && grant.createdAt == createdAt && MatchesQuery(grant, query)
    ensures DistinctGrants(stores[0]) && Throughout(stores[1..], query, id, createdAt)
  {
    hide MatchesQuery;
    assert Holds(stores[0], query, id, createdAt);
    var i :| 0 <= i < |stores[0]| && stores[0][i].id == id && stores[0][i].createdAt == createdAt && MatchesQuery(stores[0][i], query);
    grant := stores[0][i];
  }

  // One visit shows the grant exactly if it is before the cursor and not past the end of the page.
  lemma VisitShows(grants: seq<Grant>, query: Query, cursor: Option<Cursor>, grant: Grant)
    requires DistinctGrants(grants) && query.limit > 0 && grant in grants && MatchesQuery(grant, query)
    ensures var page := PageOf(Listing(grants, query, cursor), query);
            && (Shows(page, grant.id) ==> BeforeCursor(grant, cursor))
            && (page.hasMore ==> page.next.Some?)
            && (BeforeCursor(grant, cursor) ==>
                  (Shows(page, grant.id) <==> !page.hasMore || !BeforeCursor(grant, page.next)))
            && (page.next.Some? && !BeforeCursor(grant, cursor) ==> !BeforeCursor(grant, page.next))
  {
    hide MatchesQuery, NewestFirst, BeforeCursor, Listing;
    var listing := Listing(grants, query, cursor);
    var page := PageOf(listing, query);
    ListingMeans(grants, query, cursor);
    SameIdSameGrant(grants, listing, page, grant);
    if page.next.Some? {
      var m := |page.grants|;
      BeforeCursorOf(grant, listing[m - 1], query);
      assert listing == listing[..m] + listing[m..];
      if grant in listing {
        PastMeans(listing, m, grant);
        NotBoth(listing, m, grant);
      } else if BeforeCursor(grant, page.next) {
        assert listing[m - 1] in listing;
        FollowsWithin(grant, listing[m - 1], query, cursor);
      }
    }
  }

  lemma NotBoth(listing: seq<Grant>, m: nat, grant: Grant)
    requires DistinctGrants(listing) && m <= |listing| && grant in listing
    ensures grant in listing[..m] <==> grant !in listing[m..]
  {
    assert listing == listing[..m] + listing[m..];
  }

  lemma SameIdSameGrant(grants: seq<Grant>, listing: seq<Grant>, page: Page, grant: Grant)
    requires DistinctGrants(grants) && grant in grants && (forall g :: g in listing ==> g in grants)
    requires |page.grants| <= |listing| && page.grants == listing[..|page.grants|]
    ensures Shows(page, grant.id) <==> grant in page.grants
  {
    if Shows(page, grant.id) {
      var i :| 0 <= i < |page.grants| && page.grants[i].id == grant.id;
      assert page.grants[i] in listing;
      var k :| 0 <= k < |grants| && grants[k] == page.grants[i];
      var l :| 0 <= l < |grants| && grants[l] == grant;
    }
  }

  predicate Ends(pages: seq<Page>) { pages != [] && !pages[|pages| - 1].hasMore }

  // Whatever is created, expired or decided between the visits, a grant that matches throughout is
  // shown exactly once by the time the last page is reached.
  lemma {:induction false} ShownExactlyOnce(stores: seq<seq<Grant>>, query: Query, cursor: Option<Cursor>, id: string, createdAt: Time, grant: Grant)
    requires query.limit > 0 && Throughout(stores, query, id, createdAt) && grant.id == id && grant.createdAt == createdAt
    requires Ends(Visits(stores, query, cursor))
    ensures TimesShown(Visits(stores, query, cursor), id) == if BeforeCursor(grant, cursor) then 1 else 0
    decreases |stores|
  {
    hide Listing, Throughout, Shows;
    var stored := StoredMember(stores, query, id, createdAt);
    VisitShows(stores[0], query, cursor, stored);
    BeforeByKey(stored, grant, cursor);
    var page := PageOf(Listing(stores[0], query, cursor), query);
    BeforeByKey(stored, grant, page.next);
    hide BeforeCursor, MatchesQuery, PageOf;
    var pages := Visits(stores, query, cursor);
    if page.hasMore {
      var rest := Visits(stores[1..], query, page.next);
      assert pages[1..] == rest;
      LaterEnds(page, rest, pages);
      ShownExactlyOnce(stores[1..], query, page.next, id, createdAt, grant);
    } else {
      assert pages == [page] && pages[1..] == [];
      assert TimesShown(pages[1..], id) == 0;
    }
  }

  lemma LaterEnds(page: Page, rest: seq<Page>, pages: seq<Page>)
    requires pages == [page] + rest && page.hasMore && Ends(pages)
    ensures Ends(rest)
  {
    assert pages[|pages| - 1] == if rest == [] then page else rest[|rest| - 1];
  }

  lemma BeforeByKey(a: Grant, b: Grant, cursor: Option<Cursor>)
    requires a.id == b.id && a.createdAt == b.createdAt
    ensures BeforeCursor(a, cursor) == BeforeCursor(b, cursor)
  {
  }
}
