// internal/metadata/repository.go: the request log and the pages it is read in.

module Requests {
  import opened Text
  import opened Ordering

  type Time = int

  datatype Event = Event(id: int, timestamp: Time, operation: string, clientIdentity: string, credentialSource: string,
                         logicalReference: string, matchedRoute: string, sourceOrDestination: string, status: string,
                         cacheResult: string, errorClassification: string)

  // An empty string or a zero time leaves its field unfiltered.
  datatype Filter = Filter(clientIdentity: string, credentialSource: string, route: string, operation: string,
                           sourceOrDestination: string, status: string, cacheResult: string,
                           errorClassification: string, referenceContains: string, after: Time, before: Time)

  datatype Cursor = Cursor(timestamp: Time, id: int)

  datatype Query = Query(filter: Filter, limit: int, cursor: Option<Cursor>, oldestFirst: bool)

  datatype Page = Page(events: seq<Event>, next: Option<Cursor>)

  datatype LogError = InvalidRecord

  function CursorOf(e: Event): Cursor { Cursor(e.timestamp, e.id) }

  predicate Matches(e: Event, f: Filter) {
    && (f.clientIdentity == "" || e.clientIdentity == f.clientIdentity)
    && (f.credentialSource == "" || e.credentialSource == f.credentialSource)
    && (f.route == "" || e.matchedRoute == f.route)
    && (f.operation == "" || e.operation == f.operation)
    && (f.sourceOrDestination == "" || e.sourceOrDestination == f.sourceOrDestination)
    && (f.status == "" || e.status == f.status)
    && (f.cacheResult == "" || e.cacheResult == f.cacheResult)
    && (f.errorClassification == "" || e.errorClassification == f.errorClassification)
    && (f.referenceContains == "" || Contains(e.logicalReference, f.referenceContains))
    && (f.after == 0 || e.timestamp >= f.after)
    && (f.before == 0 || e.timestamp < f.before)
  }

  /** Whether (timestamp, id) comes strictly after the cursor in reading order. */
  predicate Within(timestamp: Time, id: int, cursor: Option<Cursor>, oldestFirst: bool) {
    match cursor
    case None => true
    case Some(c) =>
      if oldestFirst then timestamp > c.timestamp || (timestamp == c.timestamp && id > c.id)
      else timestamp < c.timestamp || (timestamp == c.timestamp && id < c.id)
  }

  const OLDEST: (Event, Event) -> bool :=
    (a: Event, b: Event) => a.timestamp < b.timestamp || (a.timestamp == b.timestamp && a.id <= b.id)

  const NEWEST: (Event, Event) -> bool :=
    (a: Event, b: Event) => a.timestamp > b.timestamp || (a.timestamp == b.timestamp && a.id >= b.id)

  function Order(oldestFirst: bool): (Event, Event) -> bool { if oldestFirst then OLDEST else NEWEST }

  const ID: Event -> int := (e: Event) => e.id

  type Choice = Event -> bool

  function Matching(f: Filter): Choice { (e: Event) => Matches(e, f) }

  function Chosen(f: Choice, cursor: Option<Cursor>, oldestFirst: bool): Choice {
    (e: Event) => f(e) && Within(e.timestamp, e.id, cursor, oldestFirst)
  }

  function Listing(log: seq<Event>, f: Choice, cursor: Option<Cursor>, oldestFirst: bool): seq<Event> {
    StableSort(Kept(log, Chosen(f, cursor, oldestFirst)), Order(oldestFirst))
  }

  function PageOf(listing: seq<Event>, limit: int): Page
    requires 0 <= limit
  {
    if 0 < limit < |listing| then Page(listing[..limit], Some(CursorOf(listing[limit - 1])))
    else Page(listing, None)
  }

  predicate DistinctIds(log: seq<Event>) { Distinct(log, ID) }

  class MemoryRepository {
    var events: seq<Event>
    var nextEventId: int

    ghost predicate Valid()
      reads this
      ensures Valid() ==> DistinctIds(events)
    {
      nextEventId == |events| && forall i :: 0 <= i < |events| ==> events[i].id == i + 1
    }

    constructor ()
      ensures Valid() && events == []
    {
      events := [];
      nextEventId := 0;
    }

    // The log only grows, and the new event's id is larger than every earlier one.
    method RecordRequestEvent(event: Event, now: Time) returns (r: Result<int, LogError>)
      requires Valid()
      modifies this
      ensures Valid()
      ensures r.Failure? <==> event.operation == "" || event.logicalReference == "" || event.status == ""
      ensures r.Failure? ==> events == old(events)
      ensures r.Success? ==>
                events == old(events) + [event.(id := r.value, timestamp := if event.timestamp == 0
                                                then now else event.timestamp)]
      ensures r.Success? ==> forall e :: e in old(events) ==> e.id < r.value
    {
      if event.operation == "" || event.logicalReference == "" || event.status == "" {
        return Failure(InvalidRecord);
      }
      var recorded := event;
      if recorded.timestamp == 0 {
        recorded := recorded.(timestamp := now);
      }
      nextEventId := nextEventId + 1;
      recorded := recorded.(id := nextEventId);
      events := events + [recorded];
      r := Success(nextEventId);
    }

    method QueryRequestEvents(query: Query) returns (r: Result<Page, LogError>)
      ensures r.Failure? <==> query.limit < 0
      ensures r.Success? ==>
                r.value == PageOf(Listing(events, Matching(query.filter), query.cursor, query.oldestFirst), query.limit)
    {
      if query.limit < 0 {
        return Failure(InvalidRecord);
      }
      var found: seq<Event> := [];
      for i := 0 to |events|
        invariant found == Kept(events[..i], Chosen(Matching(query.filter), query.cursor, query.oldestFirst))
      {
        assert events[..i + 1] == events[..i] + [events[i]];
        KeptConcat(events[..i], [events[i]], Chosen(Matching(query.filter), query.cursor, query.oldestFirst));
        if Matches(events[i], query.filter)
          && Within(events[i].timestamp, events[i].id, query.cursor, query.oldestFirst) {
          found := found + [events[i]];
        }
      }
      assert events[..|events|] == events;
      var sorted := StableSort(found, Order(query.oldestFirst));
      var hasMore := query.limit > 0 && |sorted| > query.limit;
      if hasMore {
        sorted := sorted[..query.limit];
      }
      var next := None;
      if hasMore && |sorted| > 0 {
        next := Some(CursorOf(sorted[|sorted| - 1]));
      }
      r := Success(Page(sorted, next));
    }
  }

  // ---------------------------------------------------------------- following the pages

  lemma OrderIsTotal(o: bool)
    ensures TotalPreorder(Order(o))
  {}

  lemma ListingSound(log: seq<Event>, f: Choice, c: Option<Cursor>, o: bool)
    ensures var l := Listing(log, f, c, o);
            && Sorted(l, Order(o))
            && (forall e :: e in l <==> e in log && Chosen(f, c, o)(e))
            && (DistinctIds(log) ==> DistinctIds(l))
  {
    var keep := Chosen(f, c, o);
    var s := Kept(log, keep);
    OrderIsTotal(o);
    StableSortSorts(s, Order(o));
    SameElements(Listing(log, f, c, o), s);
    KeptSound(log, keep);
    if DistinctIds(log) {
      KeptDistinct(log, ID, keep);
      SortDistinct(s, Listing(log, f, c, o), ID);
    }
  }

  lemma CursorSplits(l: seq<Event>, o: bool, k: nat, i: nat)
    requires Sorted(l, Order(o)) && DistinctIds(l) && k < |l| && i < |l|
    ensures Within(l[i].timestamp, l[i].id, Some(CursorOf(l[k])), o) <==> k < i
  {
    if i < k {
      assert Order(o)(l[i], l[k]) && ID(l[i]) != ID(l[k]);
    } else if k < i {
      assert Order(o)(l[k], l[i]) && ID(l[k]) != ID(l[i]);
    }
  }

  /** The listing after an event of a listing is the rest of that listing. */
  lemma NextPage(log: seq<Event>, f: Choice, c: Option<Cursor>, o: bool, k: nat)
    requires DistinctIds(log) && k < |Listing(log, f, c, o)|
    ensures Listing(log, f, Some(CursorOf(Listing(log, f, c, o)[k])), o) == Listing(log, f, c, o)[k + 1..]
  {
    var l := Listing(log, f, c, o);
    var loose, strict := Chosen(f, c, o), Chosen(f, Some(CursorOf(l[k])), o);
    ListingSound(log, f, c, o);
    assert l[k] in l;
    OrderIsTotal(o);
    KeptCommutesWithSort(log, Order(o), loose);
    KeptCommutesWithSort(log, Order(o), strict);
    KeptTwice(StableSort(log, Order(o)), loose, strict);
    forall i | 0 <= i < |l| ensures strict(l[i]) <==> k + 1 <= i {
      assert l[i] in l;
      CursorSplits(l, o, k, i);
    }
    KeptSuffix(l, k + 1, strict);
  }

  /** What a reader collects by following Next to the end. */
  function Followed(log: seq<Event>, f: Choice, limit: int, c: Option<Cursor>, o: bool): seq<Event>
    requires DistinctIds(log) && 1 <= limit
    decreases |Listing(log, f, c, o)|
  {
    var page := PageOf(Listing(log, f, c, o), limit);
    if page.next == None then page.events
    else
      NextPage(log, f, c, o, limit - 1);
      page.events + Followed(log, f, limit, page.next, o)
  }

  lemma {:induction false} FollowedIsListing(log: seq<Event>, f: Choice, limit: int, c: Option<Cursor>, o: bool)
    requires DistinctIds(log) && 1 <= limit
    ensures Followed(log, f, limit, c, o) == Listing(log, f, c, o)
    decreases |Listing(log, f, c, o)|
  {
    var l := Listing(log, f, c, o);
    if limit < |l| {
      NextPage(log, f, c, o, limit - 1);
      FollowedIsListing(log, f, limit, Some(CursorOf(l[limit - 1])), o);
      assert l == l[..limit] + l[limit..];
    }
  }

  // Oldest or newest first, and events of one time by their ids in the same direction.
  predicate Precedes(a: Event, b: Event, oldestFirst: bool) {
    if oldestFirst then a.timestamp < b.timestamp || (a.timestamp == b.timestamp && a.id < b.id)
    else b.timestamp < a.timestamp || (a.timestamp == b.timestamp && b.id < a.id)
  }

  /** Whatever the page size, the pages hold every event a query asks for once, in its order. */
  lemma PagingIsExact(log: seq<Event>, filter: Filter, limit: int, o: bool)
    requires DistinctIds(log) && 1 <= limit
    ensures var all := Followed(log, Matching(filter), limit, None, o);
            && (forall i, j :: 0 <= i < j < |all| ==> Precedes(all[i], all[j], o))
            && (forall e :: e in all <==> e in log && Matches(e, filter))
  {
    var f := Matching(filter);
    FollowedIsListing(log, f, limit, None, o);
    ListingSound(log, f, None, o);
    var all := Followed(log, f, limit, None, o);
    forall i, j | 0 <= i < j < |all| ensures Precedes(all[i], all[j], o) {
      assert Order(o)(all[i], all[j]) && ID(all[i]) != ID(all[j]);
    }
  }

  /** A page is full unless the listing ends in it, and names a next one exactly if the listing goes on. A page without
      a limit is the whole listing. */
  lemma PageIsFull(listing: seq<Event>, limit: int)
    requires 0 <= limit
    ensures var page := PageOf(listing, limit);
            && page.events <= listing && (limit == 0 ==> page == Page(listing, None))
            && (limit > 0 ==> |page.events| == if |listing| < limit then |listing| else limit)
            && (page.next == None <==> page.events == listing)
            && (page.next.Some? ==> page.next.value == CursorOf(page.events[|page.events| - 1]))
  {}

  const ANYTHING := Filter("", "", "", "", "", "", "", "", "", 0, 0)

  // Filtering by a field keeps exactly the events with its value.
  predicate Narrows(e: Event, all: Filter, narrow: Filter, has: bool) {
    Matches(e, narrow) <==> Matches(e, all) && has
  }

  /** A filter that leaves everything open matches everything, and filling a field in keeps exactly the events that have
      its value, or the text, or lie from the time on or before it. */
  lemma EachFieldNarrows(e: Event, f: Filter, v: string, t: Time)
    requires v != "" && t != 0
    ensures Matches(e, ANYTHING)
    ensures Narrows(e, f.(clientIdentity := ""), f.(clientIdentity := v), e.clientIdentity == v)
    ensures Narrows(e, f.(credentialSource := ""), f.(credentialSource := v), e.credentialSource == v)
    ensures Narrows(e, f.(route := ""), f.(route := v), e.matchedRoute == v)
    ensures Narrows(e, f.(operation := ""), f.(operation := v), e.operation == v)
    ensures Narrows(e, f.(sourceOrDestination := ""), f.(sourceOrDestination := v), e.sourceOrDestination == v)
    ensures Narrows(e, f.(status := ""), f.(status := v), e.status == v)
    ensures Narrows(e, f.(cacheResult := ""), f.(cacheResult := v), e.cacheResult == v)
    ensures Narrows(e, f.(errorClassification := ""), f.(errorClassification := v), e.errorClassification == v)
    ensures Narrows(e, f.(referenceContains := ""), f.(referenceContains := v), Contains(e.logicalReference, v))
    ensures Narrows(e, f.(after := 0), f.(after := t), t <= e.timestamp)
    ensures Narrows(e, f.(before := 0), f.(before := t), e.timestamp < t)
  {}

  /** A text contains a part exactly if it is some text, the part and some text. */
  lemma ContainsIff(s: string, part: string)
    ensures Contains(s, part) <==> exists lead, tail :: s == lead + part + tail
  {
    if Contains(s, part) {
      var i :| 0 <= i <= |s| && part <= s[i..];
      assert s == s[..i] + part + s[i + |part|..];
    }
    if lead, tail :| s == lead + part + tail {
      assert part <= s[|lead|..];
    }
  }

  /** Every event a query asks for lies either before a time or from it on. */
  lemma TimesPartition(e: Event, f: Filter, t: Time)
    requires t != 0 && f.after == 0 && f.before == 0
    ensures Matches(e, f) <==> Matches(e, f.(after := t)) != Matches(e, f.(before := t))
  {}

  /** The same reader while the log grows: each batch arrives after one more page has been read. */
  function FollowedLive(log: seq<Event>, batches: seq<seq<Event>>, f: Choice, limit: int, c: Cursor,
                        o: bool): seq<Event>
    requires DistinctIds(Flatten(log, batches)) && 1 <= limit
    decreases |batches|
  {
    LogIsDistinct(log, batches);
    var page := PageOf(Listing(log, f, Some(c), o), limit);
    if page.next == None then page.events
    else if batches == [] then Followed(log, f, limit, Some(c), o)
    else page.events + FollowedLive(log + batches[0], batches[1..], f, limit, page.next.value, o)
  }

  function Flatten(log: seq<Event>, batches: seq<seq<Event>>): seq<Event>
    decreases |batches|
  {
    if batches == [] then log else Flatten(log + batches[0], batches[1..])
  }

  lemma {:induction false} LogIsDistinct(log: seq<Event>, batches: seq<seq<Event>>)
    requires DistinctIds(Flatten(log, batches))
    ensures DistinctIds(log)
    decreases |batches|
  {
    if batches != [] {
      LogIsDistinct(log + batches[0], batches[1..]);
      forall i, j | 0 <= i < j < |log| ensures ID(log[i]) != ID(log[j]) {
        assert (log + batches[0])[i] == log[i] && (log + batches[0])[j] == log[j];
      }
    }
  }

  // Appended after everything in the log, and not before the cursor in time.
  ghost predicate Appended(log: seq<Event>, batches: seq<seq<Event>>, c: Cursor)
    decreases |batches|
  {
    batches == [] ||
    (&& (forall e :: e in batches[0] ==> e.timestamp >= c.timestamp && forall x :: x in log ==> x.id < e.id)
     && Appended(log + batches[0], batches[1..], c))
  }

  lemma AppendedBefore(log: seq<Event>, batches: seq<seq<Event>>, c: Cursor, d: Cursor)
    requires Appended(log, batches, c) && d.timestamp <= c.timestamp
    ensures Appended(log, batches, d)
    decreases |batches|
  {
    if batches != [] {
      AppendedBefore(log + batches[0], batches[1..], c, d);
    }
  }

  lemma AppendInvisible(log: seq<Event>, batch: seq<Event>, f: Choice, d: Cursor)
    requires forall e :: e in batch ==> e.timestamp >= d.timestamp && e.id > d.id
    ensures Listing(log + batch, f, Some(d), false) == Listing(log, f, Some(d), false)
  {
    var keep := Chosen(f, Some(d), false);
    KeptConcat(log, batch, keep);
    KeptAllOrNone(batch, keep);
    assert Kept(log, keep) + [] == Kept(log, keep);
  }

  /** Newest first, events appended while a reader is under way change nothing it will still see. */
  lemma {:induction false} AppendsStayOut(log: seq<Event>, batches: seq<seq<Event>>, f: Choice, limit: int, c: Cursor)
    requires DistinctIds(Flatten(log, batches)) && 1 <= limit && Appended(log, batches, c)
    ensures FollowedLive(log, batches, f, limit, c, false) == Listing(log, f, Some(c), false)
    decreases |batches|
  {
    LogIsDistinct(log, batches);
    var l := Listing(log, f, Some(c), false);
    FollowedIsListing(log, f, limit, Some(c), false);
    if limit < |l| && batches != [] {
      var last := l[limit - 1];
      var d := CursorOf(last);
      ListingSound(log, f, Some(c), false);
      assert last in l;
      AppendedBefore(log + batches[0], batches[1..], c, d);
      AppendsStayOut(log + batches[0], batches[1..], f, limit, d);
      AppendInvisible(log, batches[0], f, d);
      NextPage(log, f, Some(c), false, limit - 1);
      assert l == l[..limit] + l[limit..];
    }
  }
}
