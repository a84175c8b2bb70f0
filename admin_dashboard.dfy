/** The admin dashboard: the number of events, active events, approved
    participants and pending approvals in the admin's scope, and the
    pending-approvals alert. */
module AdminDashboard {
  import opened Wrappers
  import opened Seqs
  import opened Records
  import AdminEvents
  import EventsPage
  import opened AdminRegistrations

  /** `activeEventsList`: the scoped events that are active and not past
      their end date. */
  function ActiveEvents(scope: seq<Event>, now: int): (r: seq<Event>)
    ensures forall e | e in r :: e in scope && e.isActive && !IsCompleted(e, now)
    ensures forall e | e in scope && e.isActive && !IsCompleted(e, now) :: e in r
    ensures SubseqOf(r, scope)
    ensures forall e :: multiset(r)[e] == if e.isActive && !IsCompleted(e, now) then multiset(scope)[e] else 0
  {
    var live := (e: Event) => e.isActive && !IsCompleted(e, now);
    FilterCounts(scope, live);
    FilterSubseq(scope, live);
    FilterMembers(scope, live);
    Filter(scope, live)
  }

  /** The dashboard's active count is the length of the list the public
      events page shows for the 'active' filter without a search term. */
  lemma ActiveEventsMatchEventsPage(scope: seq<Event>, now: int)
    ensures ActiveEvents(scope, now) == EventsPage.FilterEvents(scope, "", EventsPage.ActiveOnly, now)
  {
    FilterPointwise(scope, (e: Event) => e.isActive && !IsCompleted(e, now), EventsPage.ActiveTest(now));
  }

  /** The test `p.status === status` of the two tallies. */
  function ParticipantHasStatus(status: string): Participant -> bool {
    (p: Participant) => p.status == status
  }

  /** `participants.filter(p => p.status === status).length`. */
  function StatusCount(ps: seq<Participant>, status: string): (r: nat)
    ensures r <= |ps|
  {
    |Filter(ps, ParticipantHasStatus(status))|
  }

  /** What the first `k` responses add to the tally of `status`. */
  function Tally(results: seq<ParticipantResult>, k: nat, status: string): nat
    requires k <= |results|
  {
    if k == 0 then 0
    else
      Tally(results, k - 1, status) +
      (if Delivered(results[k - 1]) then StatusCount(results[k - 1].participants.value, status) else 0)
  }

  /** The `forEach` over the participants responses that accumulates
      `totalParticipants` (approved) and `pendingApprovals` (pending). */
  method TallyParticipants(results: seq<ParticipantResult>) returns (totalParticipants: nat, pendingApprovals: nat)
    ensures totalParticipants == Tally(results, |results|, "approved")
    ensures pendingApprovals == Tally(results, |results|, "pending")
  {
    totalParticipants := 0;
    pendingApprovals := 0;
    var i := 0;
    while i < |results|
      invariant 0 <= i <= |results|
      invariant totalParticipants == Tally(results, i, "approved")
      invariant pendingApprovals == Tally(results, i, "pending")
    {
      var result := results[i];
      if result.success && result.participants.Some? {
        totalParticipants := totalParticipants + StatusCount(result.participants.value, "approved");
        pendingApprovals := pendingApprovals + StatusCount(result.participants.value, "pending");
      }
      i := i + 1;
    }
  }

  /** Annotating participants does not change how many have a status. */
  lemma {:induction false} AnnotatedStatusCount(ps: seq<Participant>, title: string, eventId: string, status: string)
    ensures |Filter(Annotate(ps, title, eventId), HasStatus(status))| == StatusCount(ps, status)
  {
    if ps != [] {
      var a := Annotate(ps, title, eventId);
      assert a[1..] == Annotate(ps[1..], title, eventId);
      AnnotatedStatusCount(ps[1..], title, eventId, status);
    }
  }

  lemma ContributionStatusCount(scope: seq<Event>, results: seq<ParticipantResult>, index: nat, status: string)
    requires |results| == |scope| && index < |results|
    ensures |Filter(Contribution(scope, results, index), HasStatus(status))| ==
      (if Delivered(results[index]) then StatusCount(results[index].participants.value, status) else 0)
  {
    if Delivered(results[index]) {
      AnnotatedStatusCount(results[index].participants.value, TitleFor(scope, scope[index].id), scope[index].id, status);
    }
  }

  /** The tally of a status over the responses is the number of collected
      registrations with that status. */
  lemma {:induction false} TallyCountsCollected(scope: seq<Event>, results: seq<ParticipantResult>, k: nat, status: string)
    requires |results| == |scope| && k <= |results|
    ensures Tally(results, k, status) == |Filter(Flattened(scope, results, k), HasStatus(status))|
  {
    if k > 0 {
      TallyCountsCollected(scope, results, k - 1, status);
      FlattenedFilterStep(scope, results, k, status);
      ContributionStatusCount(scope, results, k - 1, status);
    }
  }

  lemma FlattenedFilterStep(scope: seq<Event>, results: seq<ParticipantResult>, k: nat, status: string)
    requires |results| == |scope| && 0 < k <= |results|
    ensures |Filter(Flattened(scope, results, k), HasStatus(status))| ==
      |Filter(Flattened(scope, results, k - 1), HasStatus(status))| +
      |Filter(Contribution(scope, results, k - 1), HasStatus(status))|
  {
    FilterConcat(Flattened(scope, results, k - 1), Contribution(scope, results, k - 1), HasStatus(status));
  }

  /** A filter keeps as many elements of a permutation as of the original. */
  lemma FilterLengthOfPermutation<T>(a: seq<T>, b: seq<T>, p: T -> bool)
    requires multiset(a) == multiset(b)
    ensures |Filter(a, p)| == |Filter(b, p)|
  {
    var fa, fb := Filter(a, p), Filter(b, p);
    forall x
      ensures multiset(fa)[x] == multiset(fb)[x]
    {
      FilterMultiset(a, p, x);
      FilterMultiset(b, p, x);
    }
    MultisetExtensional(fa, fb);
    assert |multiset(fa)| == |fa|;
    assert |multiset(fb)| == |fb|;
  }

  /** The dashboard's pending figure is the number on the 'Pending' button
      of the registrations review fed the same responses, and likewise for
      approved participants. */
  lemma TallyMatchesReviewCounters(scope: seq<Event>, results: seq<ParticipantResult>, regs: seq<Registration>)
    requires |results| == |scope|
    requires multiset(regs) == multiset(Flattened(scope, results, |results|))
    ensures Tally(results, |results|, "pending") == FilterButtonCounts(regs).pending
    ensures Tally(results, |results|, "approved") == FilterButtonCounts(regs).approved
  {
    var all := Flattened(scope, results, |results|);
    TallyCountsCollected(scope, results, |results|, "pending");
    TallyCountsCollected(scope, results, |results|, "approved");
    FilterLengthOfPermutation(regs, all, HasStatus("pending"));
    FilterLengthOfPermutation(regs, all, HasStatus("approved"));
  }

  datatype Stats = Stats(totalEvents: nat, activeEvents: nat, totalParticipants: nat, pendingApprovals: nat, myEvents: nat)

  /** `fetchUserAndStats`. `None` leaves the figures as they were: the
      events request failed, or a participants request was needed and
      could not be made (no session) or threw. */
  method FetchStats(
    events: Option<seq<Event>>,
    userId: string,
    isSuperAdmin: bool,
    now: int,
    hasSession: bool,
    results: Option<seq<ParticipantResult>>)
    returns (r: Option<Stats>)
    requires events.Some? && results.Some? ==>
      |results.value| == |AdminEvents.Scope(events.value, userId, isSuperAdmin)|
    ensures events.None? ==> r.None?
    ensures events.Some? ==>
      (r.Some? <==> AdminEvents.Scope(events.value, userId, isSuperAdmin) == [] || (hasSession && results.Some?))
    ensures r.Some? ==>
      var scope := AdminEvents.Scope(events.value, userId, isSuperAdmin);
      r.value.totalEvents == |events.value| &&
      r.value.myEvents == |scope| &&
      r.value.activeEvents == |ActiveEvents(scope, now)|
    ensures r.Some? && isSuperAdmin ==> r.value.myEvents == r.value.totalEvents
    ensures r.Some? && AdminEvents.Scope(events.value, userId, isSuperAdmin) == [] ==>
      r.value.totalParticipants == 0 && r.value.pendingApprovals == 0
    ensures r.Some? && AdminEvents.Scope(events.value, userId, isSuperAdmin) != [] ==>
      r.value.totalParticipants == Tally(results.value, |results.value|, "approved") &&
      r.value.pendingApprovals == Tally(results.value, |results.value|, "pending")
  {
    if events.None? {
      return None;
    }
    var allEvents := events.value;
    var myEvents := AdminEvents.Scope(allEvents, userId, isSuperAdmin);
    var activeEventsList := ActiveEvents(myEvents, now);
    var totalParticipants := 0;
    var pendingApprovals := 0;
    if |myEvents| > 0 {
      if !hasSession || results.None? {
        return None;
      }
      totalParticipants, pendingApprovals := TallyParticipants(results.value);
    }
    r := Some(Stats(|allEvents|, |activeEventsList|, totalParticipants, pendingApprovals, |myEvents|));
  }

  /** The alert above the figures: shown when something is pending, with
      the noun in the plural for more than one registration. */
  datatype Alert = Alert(count: nat, noun: string)

  function PendingAlert(pendingApprovals: nat): (r: Option<Alert>)
    ensures r.None? <==> pendingApprovals == 0
    ensures r.Some? ==> r.value.count == pendingApprovals
    ensures r.Some? ==> (r.value.noun == "Registrations" <==> pendingApprovals > 1)
    ensures r.Some? ==> (r.value.noun == "Registration" <==> pendingApprovals == 1)
  {
    if pendingApprovals > 0 then
      Some(Alert(pendingApprovals, "Registration" + (if pendingApprovals > 1 then "s" else "")))
    else None
  }
}
