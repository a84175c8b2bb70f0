/** The public events list: text search and status filter over the
    fetched events, and the message shown when nothing is left. */
module EventsPage {
  import opened Wrappers
  import opened JsString
  import opened Seqs
  import opened Records

  /** The three choices of the status select: 'all', 'active', 'open'. */
  datatype StatusFilter = AllEvents | ActiveOnly | OpenOnly

  /** The lowercased term occurs in the lowercased title or in the
      lowercased description, when there is one. */
  predicate MatchesSearch(e: Event, term: string) {
    Includes(ToLower(e.title), ToLower(term)) ||
    (e.description.Some? && Includes(ToLower(e.description.value), ToLower(term)))
  }

  /** An event passes the search, when a term is set, and the status
      filter. */
  predicate Selected(e: Event, searchTerm: string, filter: StatusFilter, now: int) {
    (searchTerm != "" ==> MatchesSearch(e, searchTerm)) &&
    (filter == ActiveOnly ==> e.isActive && !IsCompleted(e, now)) &&
    (filter == OpenOnly ==> e.registrationOpen)
  }

  /** The three tests `filterEvents` applies. */
  function SearchTest(term: string): Event -> bool {
    (e: Event) => MatchesSearch(e, term)
  }

  function ActiveTest(now: int): Event -> bool {
    (e: Event) => !IsCompleted(e, now) && e.isActive
  }

  function OpenTest(): Event -> bool {
    (e: Event) => e.registrationOpen
  }

  function SelectedTest(searchTerm: string, filter: StatusFilter, now: int): Event -> bool {
    (e: Event) => Selected(e, searchTerm, filter, now)
  }

  /** The two stages of `filterEvents` as written: the search filter when
      a term is set, then the status filter. */
  function Staged(events: seq<Event>, searchTerm: string, filter: StatusFilter, now: int): seq<Event> {
    var searched := if searchTerm != "" then Filter(events, SearchTest(searchTerm)) else events;
    match filter
    case ActiveOnly => Filter(searched, ActiveTest(now))
    case OpenOnly => Filter(searched, OpenTest())
    case AllEvents => searched
  }

  /** The two stages keep exactly what one filter on `Selected` keeps. */
  lemma StagedIsSelected(events: seq<Event>, searchTerm: string, filter: StatusFilter, now: int)
    ensures Staged(events, searchTerm, filter, now) == Filter(events, SelectedTest(searchTerm, filter, now))
  {
    var sel := SelectedTest(searchTerm, filter, now);
    if searchTerm != "" {
      match filter
      case ActiveOnly => FilterFilter(events, SearchTest(searchTerm), ActiveTest(now), sel);
      case OpenOnly => FilterFilter(events, SearchTest(searchTerm), OpenTest(), sel);
      case AllEvents => FilterPointwise(events, SearchTest(searchTerm), sel);
    } else {
      match filter
      case ActiveOnly => FilterPointwise(events, ActiveTest(now), sel);
      case OpenOnly => FilterPointwise(events, OpenTest(), sel);
      case AllEvents => FilterKeepsAll(events, sel);
    }
  }

  /** `filterEvents`: the events that pass the search and the status
      filter, in their order and with their multiplicity. */
  function FilterEvents(events: seq<Event>, searchTerm: string, filter: StatusFilter, now: int): (r: seq<Event>)
    ensures SubseqOf(r, events)
    ensures forall e | e in r :: e in events && Selected(e, searchTerm, filter, now)
    ensures forall e | e in events && Selected(e, searchTerm, filter, now) :: e in r
    ensures forall e :: multiset(r)[e] == if Selected(e, searchTerm, filter, now) then multiset(events)[e] else 0
    ensures searchTerm == "" && filter == AllEvents ==> r == events
  {
    var sel := SelectedTest(searchTerm, filter, now);
    StagedIsSelected(events, searchTerm, filter, now);
    FilterSubseq(events, sel);
    FilterMembers(events, sel);
    FilterCounts(events, sel);
    Staged(events, searchTerm, filter, now)
  }

  datatype EmptyMessage = NoMatches | NoneAvailable

  /** The text of the empty list: 'No events match your search criteria'
      when a search term or a status filter is set, otherwise 'No events
      available at the moment'. */
  function EmptyListMessage(searchTerm: string, filter: StatusFilter): (r: EmptyMessage)
    ensures r == NoMatches <==> searchTerm != "" || filter != AllEvents
  {
    if searchTerm != "" || filter != AllEvents then NoMatches else NoneAvailable
  }
}
