/** The home page's club strip: the clubs of `GET /api/clubs`, made unique
    by name, keeping the first club of each name. */
module HomePage {
  import opened Seqs

  /** A club row; only its name and logo reach the page. */
  datatype Club = Club(clubName: string, clubLogoUrl: string)

  /** Some club in `clubs` has that name. */
  predicate Listed(clubs: seq<Club>, name: string) {
    exists k :: 0 <= k < |clubs| && clubs[k].clubName == name
  }

  /** No two clubs share a name. */
  predicate DistinctNames(clubs: seq<Club>) {
    forall i, j :: 0 <= i < j < |clubs| ==> clubs[i].clubName != clubs[j].clubName
  }

  /** The club at position `i` is the first with its name. */
  predicate FirstOfName(clubs: seq<Club>, i: nat)
    requires i < |clubs|
  {
    forall j :: 0 <= j < i ==> clubs[j].clubName != clubs[i].clubName
  }

  /** The accumulator of the `reduce` after the clubs of `clubs`: a club
      is pushed when no club already in it has the same name. */
  function Dedup(clubs: seq<Club>): (r: seq<Club>)
    ensures |r| <= |clubs|
  {
    if clubs == [] then []
    else
      var acc := Dedup(clubs[..|clubs| - 1]);
      var club := clubs[|clubs| - 1];
      if Listed(acc, club.clubName) then acc else acc + [club]
  }

  /** The `reduce` of `fetchClubs` with its linear `acc.find`. */
  method UniqueClubs(clubs: seq<Club>) returns (acc: seq<Club>)
    ensures acc == Dedup(clubs)
  {
    acc := [];
    var i := 0;
    while i < |clubs|
      invariant 0 <= i <= |clubs|
      invariant acc == Dedup(clubs[..i])
    {
      var club := clubs[i];
      var found := false;
      var j := 0;
      while j < |acc|
        invariant 0 <= j <= |acc|
        invariant forall k :: 0 <= k < j ==> acc[k].clubName != club.clubName
      {
        if acc[j].clubName == club.clubName {
          found := true;
          break;
        }
        j := j + 1;
      }
      assert found <==> Listed(acc, club.clubName);
      assert clubs[..i + 1][..i] == clubs[..i];
      if !found {
        acc := acc + [club];
      }
      i := i + 1;
    }
    assert clubs[..|clubs|] == clubs;
  }

  /** No two clubs on the page share a name. */
  lemma {:induction false} DedupDistinct(clubs: seq<Club>)
    ensures DistinctNames(Dedup(clubs))
  {
    if clubs != [] {
      DedupDistinct(clubs[..|clubs| - 1]);
    }
  }

  /** Every name of the input is on the page, and no other. */
  lemma {:induction false} DedupListed(clubs: seq<Club>, name: string)
    ensures Listed(Dedup(clubs), name) <==> Listed(clubs, name)
  {
    if clubs != [] {
      var prefix := clubs[..|clubs| - 1];
      var club := clubs[|clubs| - 1];
      var acc := Dedup(prefix);
      DedupListed(prefix, name);
      var r := Dedup(clubs);
      if Listed(clubs, name) {
        var k :| 0 <= k < |clubs| && clubs[k].clubName == name;
        if k < |prefix| {
          assert prefix[k].clubName == name;
          var m :| 0 <= m < |acc| && acc[m].clubName == name;
          assert r[m] == acc[m];
        } else if !Listed(acc, club.clubName) {
          assert r[|acc|] == club;
        }
      }
      if Listed(r, name) {
        var k :| 0 <= k < |r| && r[k].clubName == name;
        if k < |acc| {
          assert r[k] == acc[k];
          assert Listed(acc, name);
          var m :| 0 <= m < |prefix| && prefix[m].clubName == name;
          assert clubs[m] == prefix[m];
          assert Listed(clubs, name);
        } else {
          assert r == acc + [club] && r[k] == club;
          assert clubs[|clubs| - 1].clubName == name;
          assert Listed(clubs, name);
        }
      }
    }
  }

  /** The page shows exactly the first club of each name: every club on it
      is a first occurrence in the input, and every first occurrence is on
      it. */
  lemma {:induction false} DedupFirstOccurrence(clubs: seq<Club>)
    ensures forall d | d in Dedup(clubs) :: exists i :: 0 <= i < |clubs| && clubs[i] == d && FirstOfName(clubs, i)
    ensures forall i | 0 <= i < |clubs| && FirstOfName(clubs, i) :: clubs[i] in Dedup(clubs)
  {
    if clubs != [] {
      var last := |clubs| - 1;
      var prefix := clubs[..last];
      var club := clubs[last];
      var acc := Dedup(prefix);
      DedupFirstOccurrence(prefix);
      DedupListed(prefix, club.clubName);
      assert forall i | 0 <= i < last :: prefix[i] == clubs[i];
      assert forall i | 0 <= i < last :: FirstOfName(prefix, i) == FirstOfName(clubs, i);
      assert FirstOfName(clubs, last) <==> !Listed(prefix, club.clubName) by {
        if !FirstOfName(clubs, last) {
          var j :| 0 <= j < last && clubs[j].clubName == club.clubName;
          assert prefix[j].clubName == club.clubName;
        }
      }
      forall d | d in Dedup(clubs)
        ensures exists i :: 0 <= i < |clubs| && clubs[i] == d && FirstOfName(clubs, i)
      {
        if d in acc {
          var i :| 0 <= i < |prefix| && prefix[i] == d && FirstOfName(prefix, i);
          assert clubs[i] == d && FirstOfName(clubs, i);
        } else {
          assert clubs[last] == d && FirstOfName(clubs, last);
        }
      }
    }
  }

  /** The page keeps the input order. */
  lemma {:induction false} DedupSubseq(clubs: seq<Club>)
    ensures SubseqOf(Dedup(clubs), clubs)
  {
    if clubs != [] {
      var prefix := clubs[..|clubs| - 1];
      var club := clubs[|clubs| - 1];
      DedupSubseq(prefix);
      assert clubs == prefix + [club];
      if Listed(Dedup(prefix), club.clubName) {
        SubseqExtend(Dedup(prefix), prefix, club);
      } else {
        SubseqAppend(Dedup(prefix), prefix, club);
      }
    }
  }

  /** Clubs with distinct names pass unchanged. */
  lemma {:induction false} DedupOfDistinct(clubs: seq<Club>)
    requires DistinctNames(clubs)
    ensures Dedup(clubs) == clubs
  {
    if clubs != [] {
      var prefix := clubs[..|clubs| - 1];
      var club := clubs[|clubs| - 1];
      assert DistinctNames(prefix);
      DedupOfDistinct(prefix);
      assert clubs == prefix + [club];
    }
  }

  /** Making the list unique a second time changes nothing. */
  lemma DedupIdempotent(clubs: seq<Club>)
    ensures Dedup(Dedup(clubs)) == Dedup(clubs)
  {
    DedupDistinct(clubs);
    DedupOfDistinct(Dedup(clubs));
  }
}
