/** The admin's registration review: collecting the registrations of the
    admin's events, annotating each with its event, sorting them newest
    first, and the status filter with its counters. */
module AdminRegistrations {
  import opened Wrappers
  import opened Seqs
  import opened Records
  import AdminEvents

  /** A participant row with the `event_title` and `event_id` the page
      adds to it. */
  datatype Registration = Registration(participant: Participant, eventTitle: string, eventId: string)

  /** The position `myEvents.find(e => e.id === id)` stops at. */
  function FindIndex(events: seq<Event>, id: string): (r: Option<nat>)
    ensures r.Some? ==> r.value < |events|
  {
    if events == [] then None
    else if events[0].id == id then Some(0)
    else
      match FindIndex(events[1..], id)
      case None => None
      case Some(k) => Some(k + 1)
  }

  /** The search finds nothing exactly when no event has the id, and
      otherwise stops at the first event that has it. */
  lemma {:induction false} FindIndexFirstMatch(events: seq<Event>, id: string)
    ensures FindIndex(events, id).None? <==> forall k :: 0 <= k < |events| ==> events[k].id != id
    ensures FindIndex(events, id).Some? ==>
      var f := FindIndex(events, id).value;
      events[f].id == id && forall j :: 0 <= j < f ==> events[j].id != id
  {
    if events != [] && events[0].id != id {
      FindIndexFirstMatch(events[1..], id);
      assert forall k :: 1 <= k < |events| ==> events[k] == events[1..][k - 1];
    }
  }

  /** No event before position `k` has that id. */
  predicate FirstWithId(events: seq<Event>, id: string, k: nat) {
    forall j :: 0 <= j < k && j < |events| ==> events[j].id != id
  }

  /** `event?.title || 'Unknown Event'` for the first event with that id. */
  function TitleFor(events: seq<Event>, id: string): (r: string)
    ensures r != ""
  {
    match FindIndex(events, id)
    case None => "Unknown Event"
    case Some(k) => if events[k].title != "" then events[k].title else "Unknown Event"
  }

  /** The title is that of the first event with the id, unless it is
      empty; with no such event it is 'Unknown Event'. */
  lemma TitleForFirstMatch(events: seq<Event>, id: string)
    ensures (forall k :: 0 <= k < |events| ==> events[k].id != id) ==> TitleFor(events, id) == "Unknown Event"
    ensures forall k :: 0 <= k < |events| && events[k].id == id && FirstWithId(events, id, k) ==>
      TitleFor(events, id) == (if events[k].title != "" then events[k].title else "Unknown Event")
  {
    FindIndexFirstMatch(events, id);
    forall k | 0 <= k < |events| && events[k].id == id && FirstWithId(events, id, k)
      ensures FindIndex(events, id) == Some(k)
    {
      var f := FindIndex(events, id).value;
      assert !(f < k) && !(k < f);
    }
  }

  /** `{ ...p, event_title, event_id }` for each participant `p`. */
  function Annotate(ps: seq<Participant>, title: string, eventId: string): seq<Registration> {
    seq(|ps|, j requires 0 <= j < |ps| => Registration(ps[j], title, eventId))
  }

  lemma AnnotateSnoc(ps: seq<Participant>, j: nat, title: string, eventId: string)
    requires j < |ps|
    ensures Annotate(ps[..j + 1], title, eventId) == Annotate(ps[..j], title, eventId) + [Registration(ps[j], title, eventId)]
  {
    var a := Annotate(ps[..j + 1], title, eventId);
    var b := Annotate(ps[..j], title, eventId) + [Registration(ps[j], title, eventId)];
    assert |a| == |b|;
    forall i | 0 <= i < |a|
      ensures a[i] == b[i]
    {
      assert a[i] == Registration(ps[..j + 1][i], title, eventId);
      if i < j {
        assert b[i] == Registration(ps[..j][i], title, eventId);
      }
    }
  }

  /** What the `index`-th participants request adds: its participants,
      annotated with the `index`-th scoped event, or nothing at all when
      the request failed or had no participant array. */
  function Contribution(scope: seq<Event>, results: seq<ParticipantResult>, index: nat): seq<Registration>
    requires |results| == |scope| && index < |results|
  {
    if Delivered(results[index]) then
      Annotate(results[index].participants.value, TitleFor(scope, scope[index].id), scope[index].id)
    else []
  }

  /** The registrations pushed by the first `k` iterations of the outer
      `forEach`. */
  function Flattened(scope: seq<Event>, results: seq<ParticipantResult>, k: nat): seq<Registration>
    requires |results| == |scope| && k <= |results|
  {
    if k == 0 then [] else Flattened(scope, results, k - 1) + Contribution(scope, results, k - 1)
  }

  /** The inner `forEach` of `fetchRegistrations`: pushes each
      participant of one request, annotated with its event. */
  method PushAnnotated(all: seq<Registration>, ps: seq<Participant>, title: string, eventId: string)
    returns (out: seq<Registration>)
    ensures out == all + Annotate(ps, title, eventId)
  {
    out := all;
    var j := 0;
    while j < |ps|
      invariant 0 <= j <= |ps|
      invariant out == all + Annotate(ps[..j], title, eventId)
    {
      AnnotateSnoc(ps, j, title, eventId);
      out := out + [Registration(ps[j], title, eventId)];
      j := j + 1;
    }
    assert ps[..|ps|] == ps;
  }

  /** One iteration of the outer `forEach`: the participants of a
      successful response with a participant array, annotated with the
      `index`-th scoped event. */
  method PushResult(all: seq<Registration>, scope: seq<Event>, results: seq<ParticipantResult>, index: nat)
    returns (out: seq<Registration>)
    requires |results| == |scope| && index < |results|
    requires all == Flattened(scope, results, index)
    ensures out == Flattened(scope, results, index + 1)
  {
    var result := results[index];
    FlattenedStep(scope, results, index);
    out := all;
    if result.success && result.participants.Some? {
      var eventId := scope[index].id;
      out := PushAnnotated(all, result.participants.value, TitleFor(scope, eventId), eventId);
    }
  }

  /** The outer `forEach` of `fetchRegistrations` over the participants
      responses, in the order of the scoped events. */
  method Flatten(scope: seq<Event>, results: seq<ParticipantResult>) returns (all: seq<Registration>)
    requires |results| == |scope|
    ensures all == Flattened(scope, results, |results|)
  {
    all := [];
    var index := 0;
    while index < |results|
      invariant 0 <= index <= |results|
      invariant all == Flattened(scope, results, index)
    {
      all := PushResult(all, scope, results, index);
      index := index + 1;
    }
  }

  /** One iteration of the outer `forEach`: a delivered response adds its
      annotated participants, any other adds nothing. */
  lemma FlattenedStep(scope: seq<Event>, results: seq<ParticipantResult>, index: nat)
    requires |results| == |scope| && index < |results|
    ensures Delivered(results[index]) ==>
      Flattened(scope, results, index + 1) ==
      Flattened(scope, results, index) +
      Annotate(results[index].participants.value, TitleFor(scope, scope[index].id), scope[index].id)
    ensures !Delivered(results[index]) ==> Flattened(scope, results, index + 1) == Flattened(scope, results, index)
  {
    if !Delivered(results[index]) {
      assert Flattened(scope, results, index) + [] == Flattened(scope, results, index);
    }
  }

  /** `r` was pushed for the `index`-th request. */
  predicate FromResult(scope: seq<Event>, results: seq<ParticipantResult>, index: nat, r: Registration)
    requires |results| == |scope| && index < |results|
  {
    Delivered(results[index]) && r.participant in results[index].participants.value &&
    r.eventId == scope[index].id && r.eventTitle == TitleFor(scope, scope[index].id)
  }

  /** Every collected registration is a participant of a delivered
      request, annotated with that request's event. */
  lemma {:induction false} FlattenedSound(scope: seq<Event>, results: seq<ParticipantResult>, k: nat)
    requires |results| == |scope| && k <= |results|
    ensures forall r | r in Flattened(scope, results, k) ::
      exists index :: 0 <= index < k && FromResult(scope, results, index, r)
  {
    if k > 0 {
      FlattenedSound(scope, results, k - 1);
      forall r | r in Flattened(scope, results, k)
        ensures exists index :: 0 <= index < k && FromResult(scope, results, index, r)
      {
        if r !in Flattened(scope, results, k - 1) {
          assert FromResult(scope, results, k - 1, r);
        }
      }
    }
  }

  /** A delivered request contributes each of its participants. */
  lemma ContributionComplete(scope: seq<Event>, results: seq<ParticipantResult>, index: nat, p: Participant)
    requires |results| == |scope| && index < |results|
    requires Delivered(results[index]) && p in results[index].participants.value
    ensures Registration(p, TitleFor(scope, scope[index].id), scope[index].id) in Contribution(scope, results, index)
  {
    var ps := results[index].participants.value;
    var j :| 0 <= j < |ps| && ps[j] == p;
    assert Contribution(scope, results, index)[j] == Registration(p, TitleFor(scope, scope[index].id), scope[index].id);
  }

  /** Every participant of every delivered request is collected. */
  lemma {:induction false} FlattenedComplete(scope: seq<Event>, results: seq<ParticipantResult>, k: nat, index: nat, p: Participant)
    requires |results| == |scope| && index < k <= |results|
    requires Delivered(results[index]) && p in results[index].participants.value
    ensures Registration(p, TitleFor(scope, scope[index].id), scope[index].id) in Flattened(scope, results, k)
  {
    var reg := Registration(p, TitleFor(scope, scope[index].id), scope[index].id);
    if index == k - 1 {
      ContributionComplete(scope, results, index, p);
      InConcat(reg, Flattened(scope, results, k - 1), Contribution(scope, results, k - 1));
    } else {
      FlattenedComplete(scope, results, k - 1, index, p);
      InConcat(reg, Flattened(scope, results, k - 1), Contribution(scope, results, k - 1));
    }
  }

  lemma InConcat(x: Registration, a: seq<Registration>, b: seq<Registration>)
    ensures x in a + b <==> x in a || x in b
  {
  }

  /** The number of participants of the delivered requests among the
      first `k`. */
  function DeliveredCount(results: seq<ParticipantResult>, k: nat): nat
    requires k <= |results|
  {
    if k == 0 then 0
    else DeliveredCount(results, k - 1) + (if Delivered(results[k - 1]) then |results[k - 1].participants.value| else 0)
  }

  lemma {:induction false} FlattenedLength(scope: seq<Event>, results: seq<ParticipantResult>, k: nat)
    requires |results| == |scope| && k <= |results|
    ensures |Flattened(scope, results, k)| == DeliveredCount(results, k)
  {
    if k > 0 {
      FlattenedLength(scope, results, k - 1);
      var before, last := Flattened(scope, results, k - 1), Contribution(scope, results, k - 1);
      assert Flattened(scope, results, k) == before + last;
      assert |last| == if Delivered(results[k - 1]) then |results[k - 1].participants.value| else 0;
    }
  }

  /** Newest first by `created_at`. */
  predicate NewestFirst(regs: seq<Registration>) {
    forall i, j :: 0 <= i < j < |regs| ==> regs[i].participant.createdAt >= regs[j].participant.createdAt
  }

  /** Places `x` in front of the first registration that is not newer,
      which keeps registrations with equal timestamps in input order. */
  function InsertNewest(x: Registration, sorted: seq<Registration>): (r: seq<Registration>)
    ensures multiset(r) == multiset(sorted) + multiset{x}
  {
    if sorted == [] then [x]
    else if sorted[0].participant.createdAt <= x.participant.createdAt then [x] + sorted
    else
      assert sorted == [sorted[0]] + sorted[1..];
      [sorted[0]] + InsertNewest(x, sorted[1..])
  }

  lemma {:induction false} InsertNewestSorted(x: Registration, sorted: seq<Registration>)
    requires NewestFirst(sorted)
    ensures NewestFirst(InsertNewest(x, sorted))
  {
    if sorted == [] {
    } else if sorted[0].participant.createdAt <= x.participant.createdAt {
      ConsNewestFirst(x, sorted);
    } else {
      var tail := sorted[1..];
      assert NewestFirst(tail) by {
        forall i, j | 0 <= i < j < |tail|
          ensures tail[i].participant.createdAt >= tail[j].participant.createdAt
        {
          assert tail[i] == sorted[i + 1] && tail[j] == sorted[j + 1];
        }
      }
      InsertNewestSorted(x, tail);
      InsertNewestBound(x, tail, sorted[0].participant.createdAt);
      ConsNewestFirst(sorted[0], InsertNewest(x, tail));
    }
  }

  /** Putting a registration no older than any of a newest-first list in
      front of it keeps the list newest first. */
  lemma ConsNewestFirst(h: Registration, rest: seq<Registration>)
    requires NewestFirst(rest)
    requires forall k :: 0 <= k < |rest| ==> rest[k].participant.createdAt <= h.participant.createdAt
    ensures NewestFirst([h] + rest)
  {
    var r := [h] + rest;
    forall i, j | 0 <= i < j < |r|
      ensures r[i].participant.createdAt >= r[j].participant.createdAt
    {
      assert r[j] == rest[j - 1];
      if i > 0 {
        assert r[i] == rest[i - 1];
      }
    }
  }

  /** Inserting keeps every timestamp under a common bound. */
  lemma {:induction false} InsertNewestBound(x: Registration, s: seq<Registration>, b: int)
    requires x.participant.createdAt <= b
    requires forall k :: 0 <= k < |s| ==> s[k].participant.createdAt <= b
    ensures forall k :: 0 <= k < |InsertNewest(x, s)| ==> InsertNewest(x, s)[k].participant.createdAt <= b
  {
    if s != [] && s[0].participant.createdAt > x.participant.createdAt {
      InsertNewestBound(x, s[1..], b);
      var rest := InsertNewest(x, s[1..]);
      assert InsertNewest(x, s) == [s[0]] + rest;
      forall k | 0 <= k < |InsertNewest(x, s)|
        ensures InsertNewest(x, s)[k].participant.createdAt <= b
      {
        if k > 0 {
          assert InsertNewest(x, s)[k] == rest[k - 1];
        }
      }
    } else if s != [] {
      var r := InsertNewest(x, s);
      assert r == [x] + s;
      forall k | 0 <= k < |r|
        ensures r[k].participant.createdAt <= b
      {
        if k > 0 {
          assert r[k] == s[k - 1];
        }
      }
    }
  }

  /** `allRegistrations.sort(...)` by `created_at`, newest first: a
      permutation of its input in newest-first order. */
  function SortNewestFirst(regs: seq<Registration>): (r: seq<Registration>)
    ensures NewestFirst(r)
    ensures multiset(r) == multiset(regs)
  {
    if regs == [] then []
    else
      assert regs == [regs[0]] + regs[1..];
      var rest := SortNewestFirst(regs[1..]);
      InsertNewestSorted(regs[0], rest);
      InsertNewest(regs[0], rest)
  }

  /** The registrations created at exactly time `t`. */
  function CreatedAt(t: int): Registration -> bool {
    (r: Registration) => r.participant.createdAt == t
  }

  /** Inserting skips only strictly newer registrations, so `x` lands in
      front of every registration with its own timestamp. */
  lemma {:induction false} InsertNewestStable(x: Registration, sorted: seq<Registration>, t: int)
    ensures Filter(InsertNewest(x, sorted), CreatedAt(t)) == Filter([x] + sorted, CreatedAt(t))
  {
    if sorted != [] && sorted[0].participant.createdAt > x.participant.createdAt {
      var tail := sorted[1..];
      InsertNewestStable(x, tail, t);
      assert InsertNewest(x, sorted) == [sorted[0]] + InsertNewest(x, tail);
      FilterUnfold([sorted[0]] + InsertNewest(x, tail), CreatedAt(t));
      assert ([sorted[0]] + InsertNewest(x, tail))[1..] == InsertNewest(x, tail);
      FilterUnfold([x] + tail, CreatedAt(t));
      assert ([x] + tail)[1..] == tail;
      FilterUnfold([x] + sorted, CreatedAt(t));
      assert ([x] + sorted)[1..] == sorted;
      FilterUnfold(sorted, CreatedAt(t));
    }
  }

  /** The sort is stable, as `Array.prototype.sort` is: for every
      timestamp, the registrations created at it keep their input order. */
  lemma {:induction false} SortNewestFirstStable(regs: seq<Registration>, t: int)
    ensures Filter(SortNewestFirst(regs), CreatedAt(t)) == Filter(regs, CreatedAt(t))
  {
    if regs != [] {
      var rest := SortNewestFirst(regs[1..]);
      SortNewestFirstStable(regs[1..], t);
      InsertNewestStable(regs[0], rest, t);
      FilterUnfold([regs[0]] + rest, CreatedAt(t));
      assert ([regs[0]] + rest)[1..] == rest;
      FilterUnfold(regs, CreatedAt(t));
    }
  }

  /** `fetchRegistrations`. `None` stands for the error paths that leave
      the list as it was: no session, the events request failing, or a
      participants request throwing. An empty scope makes no participants
      request and yields the empty list. */
  method FetchRegistrations(
    sessionOk: bool,
    events: Option<seq<Event>>,
    userId: string,
    isSuperAdmin: bool,
    results: Option<seq<ParticipantResult>>)
    returns (r: Option<seq<Registration>>)
    requires events.Some? && results.Some? ==>
      |results.value| == |AdminEvents.Scope(events.value, userId, isSuperAdmin)|
    ensures !sessionOk || events.None? ==> r.None?
    ensures sessionOk && events.Some? && AdminEvents.Scope(events.value, userId, isSuperAdmin) == [] ==> r == Some([])
    ensures sessionOk && events.Some? && AdminEvents.Scope(events.value, userId, isSuperAdmin) != [] ==>
      (r.Some? <==> results.Some?)
    ensures r.Some? && AdminEvents.Scope(events.value, userId, isSuperAdmin) != [] ==>
      var scope := AdminEvents.Scope(events.value, userId, isSuperAdmin);
      NewestFirst(r.value) &&
      multiset(r.value) == multiset(Flattened(scope, results.value, |scope|))
  {
    if !sessionOk || events.None? {
      return None;
    }
    var myEvents := AdminEvents.Scope(events.value, userId, isSuperAdmin);
    if |myEvents| == 0 {
      return Some([]);
    }
    if results.None? {
      return None;
    }
    var allRegistrations := Flatten(myEvents, results.value);
    r := Some(SortNewestFirst(allRegistrations));
  }

  /** The test `r.status === status` shared by the list filter and the
      counters on the filter buttons. */
  function HasStatus(status: string): Registration -> bool {
    (r: Registration) => r.participant.status == status
  }

  /** `getFilteredRegistrations`: the whole list for 'all', otherwise the
      registrations with exactly that status, in list order. */
  function ByStatus(regs: seq<Registration>, filter: string): (r: seq<Registration>)
    ensures filter == "all" ==> r == regs
    ensures filter != "all" ==> forall x | x in r :: x in regs && x.participant.status == filter
    ensures filter != "all" ==> forall x | x in regs && x.participant.status == filter :: x in r
    ensures filter != "all" ==>
      forall x :: multiset(r)[x] == if x.participant.status == filter then multiset(regs)[x] else 0
    ensures SubseqOf(r, regs)
  {
    FilterCounts(regs, HasStatus(filter));
    SubseqReflexive(regs);
    FilterSubseq(regs, HasStatus(filter));
    FilterMembers(regs, HasStatus(filter));
    if filter == "all" then regs else Filter(regs, HasStatus(filter))
  }

  datatype Counters = Counters(pending: nat, approved: nat, rejected: nat, all: nat)

  /** The numbers on the four filter buttons; each equals the length of
      the list that button selects. */
  function FilterButtonCounts(regs: seq<Registration>): (r: Counters)
    ensures r.all == |regs| == |ByStatus(regs, "all")|
    ensures r.pending == |ByStatus(regs, "pending")|
    ensures r.approved == |ByStatus(regs, "approved")|
    ensures r.rejected == |ByStatus(regs, "rejected")|
  {
    Counters(
      |Filter(regs, HasStatus("pending"))|,
      |Filter(regs, HasStatus("approved"))|,
      |Filter(regs, HasStatus("rejected"))|,
      |regs|)
  }

  /** When every registration is pending, approved or rejected, the three
      status counters add up to the 'All' counter. */
  lemma {:induction false} CountersPartition(regs: seq<Registration>)
    requires forall x | x in regs :: x.participant.status in {"pending", "approved", "rejected"}
    ensures var c := FilterButtonCounts(regs); c.pending + c.approved + c.rejected == c.all
  {
    if regs != [] {
      assert regs[0] in regs;
      assert forall x | x in regs[1..] :: x in regs;
      CountersPartition(regs[1..]);
    }
  }

  /** The empty-list text; its button back to 'all' shows for every other
      filter. */
  function EmptyListText(filter: string): (r: string)
    ensures filter == "all" ==> r == "No  registrations found"
    ensures filter != "all" ==> r == "No " + filter + " registrations found"
  {
    "No " + (if filter != "all" then filter else "") + " registrations found"
  }
}
