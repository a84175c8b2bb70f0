/** The admin's event list: which events an admin sees, which of them
    they may manage, and the badges on each card. */
module AdminEvents {
  import opened Wrappers
  import opened Seqs
  import opened Records

  /** The events an admin works with: all of them for a super admin,
      otherwise those the admin created. The dashboard and the
      registrations review apply the same rule. */
  function Scope(events: seq<Event>, userId: string, isSuperAdmin: bool): (r: seq<Event>)
    ensures isSuperAdmin ==> r == events
    ensures !isSuperAdmin ==> forall e | e in r :: e in events && e.createdBy == Some(userId)
    ensures !isSuperAdmin ==> forall e | e in events && e.createdBy == Some(userId) :: e in r
    ensures !isSuperAdmin ==>
      forall e :: multiset(r)[e] == if e.createdBy == Some(userId) then multiset(events)[e] else 0
    ensures SubseqOf(r, events)
  {
    var owned := (e: Event) => e.createdBy == Some(userId);
    FilterCounts(events, owned);
    SubseqReflexive(events);
    FilterSubseq(events, owned);
    FilterMembers(events, owned);
    if isSuperAdmin then events else Filter(events, owned)
  }

  /** `canManage`: a super admin manages every event, an admin the events
      they created, and nobody manages anything without a user. */
  function CanManage(isSuperAdmin: bool, user: Option<string>, e: Event): (r: bool)
    ensures r <==> isSuperAdmin || (user.Some? && e.createdBy == user)
  {
    isSuperAdmin || (user.Some? && e.createdBy == Some(user.value))
  }

  /** Every event in an admin's scope can be managed by that admin, so
      no edit, form, participants or delete button in the list is
      disabled. */
  lemma ScopedEventsAreManageable(events: seq<Event>, userId: string, isSuperAdmin: bool)
    ensures forall e | e in Scope(events, userId, isSuperAdmin) :: CanManage(isSuperAdmin, Some(userId), e)
  {
  }

  datatype StateBadge = CompletedBadge | ActiveBadge | InactiveBadge

  function Badge(e: Event, now: int): (r: StateBadge)
    ensures r == CompletedBadge <==> IsCompleted(e, now)
    ensures r == ActiveBadge <==> !IsCompleted(e, now) && e.isActive
    ensures r == InactiveBadge <==> !IsCompleted(e, now) && !e.isActive
  {
    if IsCompleted(e, now) then CompletedBadge
    else if e.isActive then ActiveBadge
    else InactiveBadge
  }

  /** The extra 'Open' badge. */
  function ShowsOpenBadge(e: Event, now: int): (r: bool)
    ensures r <==> !IsCompleted(e, now) && e.registrationOpen
  {
    !IsCompleted(e, now) && e.registrationOpen
  }

  /** The message of an empty list, which depends on the role only. */
  function EmptyListMessage(isSuperAdmin: bool): (r: string)
    ensures isSuperAdmin ==> r == "No events found in the system."
    ensures !isSuperAdmin ==> r == "You have not created any events yet."
  {
    if isSuperAdmin then "No events found in the system." else "You have not created any events yet."
  }
}
