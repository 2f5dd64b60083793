/**
 * The leaderboard as a function of the users and their activities: each user's score is the
 * total duration of the user's activities; the (user, score) pairs, in ascending user id
 * order, are stably sorted by descending score; ranks 1, 2, ..., N follow list order, ties
 * included; an entry's id is its rank.
 */
module Ranking {
  import opened Models
  import opened EntityStore
  import Sorting

  /** A user and the user's total duration. */
  datatype Standing = Standing(user: nat, score: int)

  /** The total duration of the activities among `ids` that belong to `uid`. */
  function DurationSum(acts: map<nat, Activity>, ids: seq<nat>, uid: nat): int
    requires forall i :: 0 <= i < |ids| ==> ids[i] in acts
  {
    if ids == [] then 0
    else
      var a := acts[ids[|ids| - 1]];
      DurationSum(acts, ids[..|ids| - 1], uid) + (if a.user == uid then a.duration else 0)
  }

  /** A user's score: the sum of the durations of all the user's activities. */
  function Score(acts: map<nat, Activity>, uid: nat): int {
    DurationSum(acts, AscendingIds(acts.Keys), uid)
  }

  lemma {:induction false} DurationSumAppend(acts: map<nat, Activity>, xs: seq<nat>, ys: seq<nat>, uid: nat)
    requires forall i :: 0 <= i < |xs| ==> xs[i] in acts
    requires forall i :: 0 <= i < |ys| ==> ys[i] in acts
    ensures forall i :: 0 <= i < |xs + ys| ==> (xs + ys)[i] in acts
    ensures DurationSum(acts, xs + ys, uid) == DurationSum(acts, xs, uid) + DurationSum(acts, ys, uid)
    decreases |ys|
  {
    if ys != [] {
      var ys' := ys[..|ys| - 1];
      DurationSumAppend(acts, xs, ys', uid);
      assert (xs + ys)[..|xs + ys| - 1] == xs + ys';
    } else {
      assert xs + ys == xs;
    }
  }

  /** Dropping the last element of one side and an equal element of the other keeps two multisets equal. */
  lemma RemoveMatching<T>(xs: seq<T>, ys: seq<T>, j: nat)
    requires multiset(xs) == multiset(ys) && xs != []
    requires j < |ys| && ys[j] == xs[|xs| - 1]
    ensures multiset(xs[..|xs| - 1]) == multiset(ys[..j] + ys[j + 1..])
  {
    var x := ys[j];
    assert xs == xs[..|xs| - 1] + [x];
    assert ys == ys[..j] + [x] + ys[j + 1..];
    MultisetCancel(multiset(xs[..|xs| - 1]), multiset(ys[..j] + ys[j + 1..]), x);
  }

  lemma MultisetCancel<T>(a: multiset<T>, b: multiset<T>, x: T)
    requires a + multiset{x} == b + multiset{x}
    ensures a == b
  {
    forall e ensures a[e] == b[e] {
      assert (a + multiset{x})[e] == (b + multiset{x})[e];
    }
  }

  /** The duration of one listed activity counts exactly once. */
  lemma DurationSumSplit(acts: map<nat, Activity>, ys: seq<nat>, j: nat, rest: seq<nat>, uid: nat)
    requires forall i :: 0 <= i < |ys| ==> ys[i] in acts
    requires j < |ys| && rest == ys[..j] + ys[j + 1..]
    ensures forall i :: 0 <= i < |rest| ==> rest[i] in acts
    ensures DurationSum(acts, ys, uid) == DurationSum(acts, rest, uid) + DurationSum(acts, [ys[j]], uid)
  {
    assert ys == ys[..j] + [ys[j]] + ys[j + 1..];
    DurationSumAppend(acts, ys[..j], [ys[j]], uid);
    DurationSumAppend(acts, ys[..j] + [ys[j]], ys[j + 1..], uid);
    DurationSumAppend(acts, ys[..j], ys[j + 1..], uid);
  }

  /** A list with the same elements as one of stored ids holds only stored ids. */
  lemma PermutedIdsStored(acts: map<nat, Activity>, xs: seq<nat>, ys: seq<nat>)
    requires forall i :: 0 <= i < |xs| ==> xs[i] in acts
    requires multiset(xs) == multiset(ys)
    ensures forall i :: 0 <= i < |ys| ==> ys[i] in acts
  {
    forall i | 0 <= i < |ys| ensures ys[i] in acts {
      assert ys[i] in multiset(xs);
    }
  }

  /** The position in `ys` of an element of `xs`, when both have the same elements. */
  lemma MatchingIndex(xs: seq<nat>, ys: seq<nat>, k: nat) returns (j: nat)
    requires multiset(xs) == multiset(ys) && k < |xs|
    ensures j < |ys| && ys[j] == xs[k]
  {
    assert xs[k] in multiset(ys);
    j :| 0 <= j < |ys| && ys[j] == xs[k];
  }

  /** The sum over a single id. */
  lemma DurationSumSingle(acts: map<nat, Activity>, k: nat, uid: nat)
    requires k in acts
    ensures DurationSum(acts, [k], uid) == if acts[k].user == uid then acts[k].duration else 0
  {
    assert [k][..0] == [];
  }

  /** The sum does not depend on the order in which the activities are read. */
  lemma {:induction false} DurationSumPermutation(acts: map<nat, Activity>, xs: seq<nat>, ys: seq<nat>, uid: nat)
    requires forall i :: 0 <= i < |xs| ==> xs[i] in acts
    requires multiset(xs) == multiset(ys)
    ensures forall i :: 0 <= i < |ys| ==> ys[i] in acts
    ensures DurationSum(acts, xs, uid) == DurationSum(acts, ys, uid)
    decreases |xs|
  {
    PermutedIdsStored(acts, xs, ys);
    if xs == [] {
      assert |ys| == |multiset(ys)|;
    } else {
      var n := |xs| - 1;
      var j := MatchingIndex(xs, ys, n);
      var rest := ys[..j] + ys[j + 1..];
      RemoveMatching(xs, ys, j);
      DurationSumPermutation(acts, xs[..n], rest, uid);
      DurationSumSplit(acts, ys, j, rest, uid);
      DurationSumSingle(acts, xs[n], uid);
    }
  }

  lemma {:induction false} DurationSumNone(acts: map<nat, Activity>, ids: seq<nat>, uid: nat)
    requires forall i :: 0 <= i < |ids| ==> ids[i] in acts
    requires forall k :: k in acts ==> acts[k].user != uid
    ensures DurationSum(acts, ids, uid) == 0
  {
    if ids != [] {
      DurationSumNone(acts, ids[..|ids| - 1], uid);
    }
  }

  /** Reading the activities in any order that lists each once gives the same score. */
  lemma ScoreAnyOrder(acts: map<nat, Activity>, ids: seq<nat>, uid: nat)
    requires multiset(ids) == multiset(AscendingIds(acts.Keys))
    ensures forall i :: 0 <= i < |ids| ==> ids[i] in acts
    ensures DurationSum(acts, ids, uid) == Score(acts, uid)
  {
    DurationSumPermutation(acts, AscendingIds(acts.Keys), ids, uid);
  }

  /** A user with no activities scores 0. */
  lemma ScoreWithoutActivities(acts: map<nat, Activity>, uid: nat)
    requires forall k :: k in acts ==> acts[k].user != uid
    ensures Score(acts, uid) == 0
  {
    DurationSumNone(acts, AscendingIds(acts.Keys), uid);
  }

  /** One (user, score) pair per user id, in the order of `ids`. */
  function StandingsOf(ids: seq<nat>, acts: map<nat, Activity>): seq<Standing> {
    seq(|ids|, i requires 0 <= i < |ids| => Standing(ids[i], Score(acts, ids[i])))
  }

  /** Sorting by this key ascending is sorting by score descending (`reverse=True`). */
  function ScoreKey(s: Standing): int { -s.score }

  /** `list.sort(key=score, reverse=True)`: stable, highest score first. */
  function SortByScoreDesc(es: seq<Standing>): seq<Standing> {
    Sorting.Sort(es, ScoreKey)
  }

  /** `enumerate(es, start=1)`: the entry at position i gets rank i + 1. */
  function Ranked(es: seq<Standing>): (r: seq<LeaderboardEntry>)
    ensures |r| == |es|
    ensures forall i :: 0 <= i < |es| ==> r[i].user == es[i].user && r[i].score == es[i].score && r[i].rank == i + 1
  {
    seq(|es|, i requires 0 <= i < |es| => LeaderboardEntry(es[i].user, es[i].score, i + 1))
  }

  /** The leaderboard computed from the users and the activities. */
  function LeaderboardOf(users: map<nat, User>, acts: map<nat, Activity>): seq<LeaderboardEntry> {
    Ranked(SortByScoreDesc(StandingsOf(AscendingIds(users.Keys), acts)))
  }

  /** Equal scores appear in ascending user order. */
  ghost predicate TiesByUser(t: seq<Standing>) {
    forall i, j :: 0 <= i < j < |t| && t[i].score == t[j].score ==> t[i].user < t[j].user
  }

  /** A standing put in front keeps ties in user order when it precedes the equal scores behind it. */
  lemma ConsKeepsTies(h: Standing, u: seq<Standing>)
    requires TiesByUser(u)
    requires forall y :: y in u && y.score == h.score ==> h.user < y.user
    ensures TiesByUser([h] + u)
  {
    var r := [h] + u;
    forall i, j | 0 <= i < j < |r| && r[i].score == r[j].score ensures r[i].user < r[j].user {
      assert r[j] == u[j - 1];
      if i == 0 {
        assert r[j] in u;
      } else {
        assert r[i] == u[i - 1];
      }
    }
  }

  /** The head of a list whose ties are in user order precedes the equal scores behind it. */
  lemma HeadPrecedesTies(t: seq<Standing>)
    requires t != [] && TiesByUser(t)
    ensures TiesByUser(t[1..])
    ensures forall y :: y in t[1..] && y.score == t[0].score ==> t[0].user < y.user
  {
    forall i, j | 0 <= i < j < |t[1..]| && t[1..][i].score == t[1..][j].score
      ensures t[1..][i].user < t[1..][j].user
    {
      assert t[1..][i] == t[i + 1] && t[1..][j] == t[j + 1];
    }
    forall y | y in t[1..] && y.score == t[0].score ensures t[0].user < y.user {
      var m :| 0 <= m < |t[1..]| && t[1..][m] == y;
      assert t[m + 1] == y;
    }
  }

  lemma {:induction false} InsertKeepsTies(x: Standing, t: seq<Standing>)
    requires TiesByUser(t)
    requires forall y :: y in t ==> x.user < y.user
    ensures TiesByUser(Sorting.Insert(x, t, ScoreKey))
  {
    if t == [] || ScoreKey(x) <= ScoreKey(t[0]) {
      ConsKeepsTies(x, t);
    } else {
      var u := Sorting.Insert(x, t[1..], ScoreKey);
      HeadPrecedesTies(t);
      InsertKeepsTies(x, t[1..]);
      Sorting.InsertPermutes(x, t[1..], ScoreKey);
      forall y | y in u && y.score == t[0].score ensures t[0].user < y.user {
        assert y in multiset(t[1..]) + multiset{x};
      }
      ConsKeepsTies(t[0], u);
    }
  }

  /** Sorting a list in ascending user order puts equal scores in ascending user order. */
  lemma {:induction false} SortKeepsTies(s: seq<Standing>)
    requires forall i, j :: 0 <= i < j < |s| ==> s[i].user < s[j].user
    ensures TiesByUser(SortByScoreDesc(s))
  {
    if s != [] {
      SortKeepsTies(s[1..]);
      Sorting.SortFacts(s[1..], ScoreKey);
      forall y | y in SortByScoreDesc(s[1..]) ensures s[0].user < y.user {
        assert y in multiset(s[1..]);
        var m :| 0 <= m < |s[1..]| && s[1..][m] == y;
        assert s[m + 1] == y;
      }
      InsertKeepsTies(s[0], SortByScoreDesc(s[1..]));
    }
  }

  /** Sorting keeps exactly the standings it is given. */
  lemma SortedMembers(s: seq<Standing>)
    ensures var t := SortByScoreDesc(s); |t| == |s| && forall x :: x in t <==> x in s
  {
    var t := SortByScoreDesc(s);
    Sorting.SortFacts(s, ScoreKey);
    forall x ensures x in t <==> x in s {
      assert x in t <==> x in multiset(t);
      assert x in s <==> x in multiset(s);
    }
  }

  /** Sorting puts the scores in non-increasing order. */
  lemma SortedDescending(s: seq<Standing>)
    ensures var t := SortByScoreDesc(s); forall i, j :: 0 <= i < j < |t| ==> t[i].score >= t[j].score
  {
    var t := SortByScoreDesc(s);
    Sorting.SortFacts(s, ScoreKey);
    forall i, j | 0 <= i < j < |t| ensures t[i].score >= t[j].score {
      assert ScoreKey(t[i]) <= ScoreKey(t[j]);
    }
  }

  /** Before sorting: one standing per user, in ascending user order, each with the user's score. */
  lemma StandingsMembers(users: map<nat, User>, acts: map<nat, Activity>)
    ensures var s := StandingsOf(AscendingIds(users.Keys), acts);
      && |s| == |users|
      && (forall x :: x in s ==> x.user in users && x.score == Score(acts, x.user))
      && (forall u :: u in users ==> Standing(u, Score(acts, u)) in s)
      && (forall i, j :: 0 <= i < j < |s| ==> s[i].user < s[j].user)
  {
    StandingsOfListing(users, acts, AscendingIds(users.Keys));
  }

  lemma StandingsOfListing(users: map<nat, User>, acts: map<nat, Activity>, ids: seq<nat>)
    requires |ids| == |users| && (forall x :: x in ids <==> x in users) && StrictlyIncreasing(ids)
    ensures var s := StandingsOf(ids, acts);
      && |s| == |users|
      && (forall x :: x in s ==> x.user in users && x.score == Score(acts, x.user))
      && (forall u :: u in users ==> Standing(u, Score(acts, u)) in s)
      && (forall i, j :: 0 <= i < j < |s| ==> s[i].user < s[j].user)
  {
    var s := StandingsOf(ids, acts);
    forall x | x in s ensures x.user in users && x.score == Score(acts, x.user) {
      var k :| 0 <= k < |s| && s[k] == x;
      assert ids[k] in ids;
    }
    forall u | u in users ensures Standing(u, Score(acts, u)) in s {
      var k :| 0 <= k < |ids| && ids[k] == u;
      assert s[k] == Standing(u, Score(acts, u));
    }
  }

  /** Every entry of the computed leaderboard is an existing user with that user's score. */
  lemma BoardEntriesScored(users: map<nat, User>, acts: map<nat, Activity>)
    ensures var rows := LeaderboardOf(users, acts);
      forall i :: 0 <= i < |rows| ==> rows[i].user in users && rows[i].score == Score(acts, rows[i].user)
  {
    var s := StandingsOf(AscendingIds(users.Keys), acts);
    var t := SortByScoreDesc(s);
    var rows := LeaderboardOf(users, acts);
    StandingsMembers(users, acts);
    SortedMembers(s);
    forall i | 0 <= i < |rows| ensures rows[i].user in users && rows[i].score == Score(acts, rows[i].user) {
      assert t[i] in t;
    }
  }

  /** Entries that follow a list holding every user's standing hold an entry for every user. */
  lemma CoverFromStandings(users: map<nat, User>, acts: map<nat, Activity>, t: seq<Standing>, rows: seq<LeaderboardEntry>)
    requires forall u :: u in users ==> Standing(u, Score(acts, u)) in t
    requires |rows| == |t| && forall i :: 0 <= i < |t| ==> rows[i].user == t[i].user
    ensures forall u :: u in users ==> exists i :: 0 <= i < |rows| && rows[i].user == u
  {
    forall u | u in users ensures exists i :: 0 <= i < |rows| && rows[i].user == u {
      var i :| 0 <= i < |t| && t[i] == Standing(u, Score(acts, u));
      assert rows[i].user == u;
    }
  }

  /** Every user has an entry on the computed leaderboard, and there are as many entries as users. */
  lemma BoardCoversUsers(users: map<nat, User>, acts: map<nat, Activity>)
    ensures var rows := LeaderboardOf(users, acts);
      && |rows| == |users|
      && forall u :: u in users ==> exists i :: 0 <= i < |rows| && rows[i].user == u
  {
    var s := StandingsOf(AscendingIds(users.Keys), acts);
    var t := SortByScoreDesc(s);
    StandingsMembers(users, acts);
    SortedMembers(s);
    CoverFromStandings(users, acts, t, Ranked(t));
  }

  /** Scores never increase down the computed leaderboard; ties are in ascending user order. */
  lemma BoardOrdered(users: map<nat, User>, acts: map<nat, Activity>)
    ensures var rows := LeaderboardOf(users, acts);
      && (forall i, j :: 0 <= i < j < |rows| ==> rows[i].score >= rows[j].score)
      && (forall i, j :: 0 <= i < j < |rows| && rows[i].score == rows[j].score ==> rows[i].user < rows[j].user)
  {
    var s := StandingsOf(AscendingIds(users.Keys), acts);
    var t := SortByScoreDesc(s);
    StandingsMembers(users, acts);
    SortedMembers(s);
    SortedDescending(s);
    SortKeepsTies(s);
  }

  /**
   * What makes a list of entries the leaderboard of these users and activities: every
   * entry's user exists and every user has an entry; each score is the user's total
   * duration; the entry at position i has rank i + 1; scores never increase down the list;
   * equal scores are in ascending user id order.
   */
  ghost predicate IsLeaderboard(users: map<nat, User>, acts: map<nat, Activity>, rows: seq<LeaderboardEntry>) {
    && (forall i :: 0 <= i < |rows| ==> rows[i].user in users)
    && (forall u :: u in users ==> exists i :: 0 <= i < |rows| && rows[i].user == u)
    && (forall i :: 0 <= i < |rows| ==> rows[i].score == Score(acts, rows[i].user))
    && (forall i :: 0 <= i < |rows| ==> rows[i].rank == i + 1)
    && (forall i, j :: 0 <= i < j < |rows| ==> rows[i].score >= rows[j].score)
    && (forall i, j :: 0 <= i < j < |rows| && rows[i].score == rows[j].score ==> rows[i].user < rows[j].user)
  }

  /** The computed leaderboard has all those properties and one entry per user. */
  lemma LeaderboardFacts(users: map<nat, User>, acts: map<nat, Activity>)
    ensures IsLeaderboard(users, acts, LeaderboardOf(users, acts))
    ensures |LeaderboardOf(users, acts)| == |users|
  {
    var rows := LeaderboardOf(users, acts);
    BoardEntriesScored(users, acts);
    BoardCoversUsers(users, acts);
    BoardOrdered(users, acts);
    BoardRanks(users, acts);
    LeaderboardIntro(users, acts, rows);
  }

  /** The entry at position i of the computed leaderboard has rank i + 1. */
  lemma BoardRanks(users: map<nat, User>, acts: map<nat, Activity>)
    ensures var rows := LeaderboardOf(users, acts); forall i :: 0 <= i < |rows| ==> rows[i].rank == i + 1
  {
  }

  lemma LeaderboardIntro(users: map<nat, User>, acts: map<nat, Activity>, rows: seq<LeaderboardEntry>)
    requires forall i :: 0 <= i < |rows| ==> rows[i].user in users && rows[i].score == Score(acts, rows[i].user)
    requires forall u :: u in users ==> exists i :: 0 <= i < |rows| && rows[i].user == u
    requires forall i :: 0 <= i < |rows| ==> rows[i].rank == i + 1
    requires forall i, j :: 0 <= i < j < |rows| ==> rows[i].score >= rows[j].score
    requires forall i, j :: 0 <= i < j < |rows| && rows[i].score == rows[j].score ==> rows[i].user < rows[j].user
    ensures IsLeaderboard(users, acts, rows)
  {
  }

  /** The parts of `LeaderboardFacts` that storing the entries needs. */
  lemma LeaderboardShape(users: map<nat, User>, acts: map<nat, Activity>)
    ensures var rows := LeaderboardOf(users, acts);
      && |rows| == |users|
      && (forall i :: 0 <= i < |rows| ==> rows[i].user in users && rows[i].rank == i + 1)
  {
    LeaderboardFacts(users, acts);
  }

  /** On a leaderboard no user appears twice (two entries of one user carry the same score). */
  lemma UsersDistinct(users: map<nat, User>, acts: map<nat, Activity>, rows: seq<LeaderboardEntry>)
    requires IsLeaderboard(users, acts, rows)
    ensures forall i, j :: 0 <= i < j < |rows| ==> rows[i].user != rows[j].user
  {
    forall i, j | 0 <= i < j < |rows| ensures rows[i].user != rows[j].user {
      assert rows[i].score == Score(acts, rows[i].user) && rows[j].score == Score(acts, rows[j].user);
    }
  }

  /** The (user, score) pairs of a list of entries. */
  function StandingsOfRows(rows: seq<LeaderboardEntry>): (r: seq<Standing>)
    ensures |r| == |rows|
    ensures forall i :: 0 <= i < |rows| ==> r[i].user == rows[i].user && r[i].score == rows[i].score
  {
    seq(|rows|, i requires 0 <= i < |rows| => Standing(rows[i].user, rows[i].score))
  }

  /** The multiset of (user, score) pairs on the leaderboard is that of the users' standings. */
  lemma LeaderboardPermutation(users: map<nat, User>, acts: map<nat, Activity>)
    ensures multiset(StandingsOfRows(LeaderboardOf(users, acts)))
      == multiset(StandingsOf(AscendingIds(users.Keys), acts))
  {
    var s := StandingsOf(AscendingIds(users.Keys), acts);
    Sorting.SortFacts(s, ScoreKey);
    assert StandingsOfRows(LeaderboardOf(users, acts)) == SortByScoreDesc(s);
  }

  /** Standings ordered by descending score, then ascending user. */
  ghost predicate Before(x: Standing, y: Standing) {
    x.score > y.score || (x.score == y.score && x.user < y.user)
  }

  ghost predicate StrictlyOrdered(a: seq<Standing>) {
    forall i, j :: 0 <= i < j < |a| ==> Before(a[i], a[j])
  }

  lemma HeadMember<T>(s: seq<T>)
    requires s != []
    ensures s[0] in s
  {
  }

  /** Two strictly ordered lists with the same members are equal. */
  lemma {:induction false} StrictOrderUnique(a: seq<Standing>, b: seq<Standing>)
    requires StrictlyOrdered(a) && StrictlyOrdered(b)
    requires forall x :: x in a <==> x in b
    ensures a == b
    decreases |a|
  {
    if a != [] && b != [] {
      assert a[0] in b;
      assert b[0] in a;
      var k :| 0 <= k < |b| && b[k] == a[0];
      var m :| 0 <= m < |a| && a[m] == b[0];
      assert a[0] == b[0];
      forall x ensures x in a[1..] <==> x in b[1..] {
        if x in a[1..] {
          var p :| 1 <= p < |a| && a[p] == x;
          assert Before(a[0], x);
          assert x in b && x != b[0];
          var q :| 0 <= q < |b| && b[q] == x;
          assert b[1..][q - 1] == x;
        }
        if x in b[1..] {
          var p :| 1 <= p < |b| && b[p] == x;
          assert Before(b[0], x);
          assert x in a && x != a[0];
          var q :| 0 <= q < |a| && a[q] == x;
          assert a[1..][q - 1] == x;
        }
      }
      StrictOrderUnique(a[1..], b[1..]);
      assert a == [a[0]] + a[1..] && b == [b[0]] + b[1..];
    } else if a != [] {
      HeadMember(a);
      assert false;
    } else if b != [] {
      HeadMember(b);
      assert false;
    }
  }

  lemma LeaderboardStrictlyOrdered(users: map<nat, User>, acts: map<nat, Activity>, rows: seq<LeaderboardEntry>)
    requires IsLeaderboard(users, acts, rows)
    ensures StrictlyOrdered(StandingsOfRows(rows))
  {
    var a := StandingsOfRows(rows);
    forall i, j | 0 <= i < j < |a| ensures Before(a[i], a[j]) {
      assert rows[i].score >= rows[j].score;
    }
  }

  lemma SameStandings(users: map<nat, User>, acts: map<nat, Activity>, rows: seq<LeaderboardEntry>, other: seq<LeaderboardEntry>)
    requires IsLeaderboard(users, acts, rows) && IsLeaderboard(users, acts, other)
    ensures forall x :: x in StandingsOfRows(rows) <==> x in StandingsOfRows(other)
  {
    var a, b := StandingsOfRows(rows), StandingsOfRows(other);
    forall x ensures x in a ==> x in b {
      if x in a {
        var i :| 0 <= i < |a| && a[i] == x;
        var j :| 0 <= j < |other| && other[j].user == x.user;
        assert b[j] == x;
      }
    }
    forall x ensures x in b ==> x in a {
      if x in b {
        var i :| 0 <= i < |b| && b[i] == x;
        var j :| 0 <= j < |rows| && rows[j].user == x.user;
        assert a[j] == x;
      }
    }
  }

  /** Two lists ranked 1..N with the same (user, score) pairs are equal. */
  lemma EqualByStandings(rows: seq<LeaderboardEntry>, other: seq<LeaderboardEntry>)
    requires forall i :: 0 <= i < |rows| ==> rows[i].rank == i + 1
    requires forall i :: 0 <= i < |other| ==> other[i].rank == i + 1
    requires StandingsOfRows(rows) == StandingsOfRows(other)
    ensures rows == other
  {
    var a, b := StandingsOfRows(rows), StandingsOfRows(other);
    assert |rows| == |a| == |b| == |other|;
    forall i | 0 <= i < |rows| ensures rows[i] == other[i] {
      assert a[i] == b[i];
    }
  }

  /** Those properties determine the leaderboard: a list that has them is the computed one. */
  lemma LeaderboardDetermined(users: map<nat, User>, acts: map<nat, Activity>, rows: seq<LeaderboardEntry>)
    requires IsLeaderboard(users, acts, rows)
    ensures rows == LeaderboardOf(users, acts)
  {
    LeaderboardFacts(users, acts);
    LeaderboardUnique(users, acts, rows, LeaderboardOf(users, acts));
  }

  /** Two lists with those properties, for the same users and activities, are equal. */
  lemma LeaderboardUnique(users: map<nat, User>, acts: map<nat, Activity>, rows: seq<LeaderboardEntry>, other: seq<LeaderboardEntry>)
    requires IsLeaderboard(users, acts, rows) && IsLeaderboard(users, acts, other)
    ensures rows == other
  {
    LeaderboardStrictlyOrdered(users, acts, rows);
    LeaderboardStrictlyOrdered(users, acts, other);
    SameStandings(users, acts, rows, other);
    StrictOrderUnique(StandingsOfRows(rows), StandingsOfRows(other));
    EqualByStandings(rows, other);
  }

  /**
   * A list of entries has the properties of `IsLeaderboard` exactly when it is the computed
   * leaderboard; so recomputing from the same users and activities gives the same list.
   */
  lemma LeaderboardCharacterized(users: map<nat, User>, acts: map<nat, Activity>, rows: seq<LeaderboardEntry>)
    ensures IsLeaderboard(users, acts, rows) <==> rows == LeaderboardOf(users, acts)
  {
    LeaderboardFacts(users, acts);
    if IsLeaderboard(users, acts, rows) {
      LeaderboardDetermined(users, acts, rows);
    }
  }

  /** Each stored entry's id equals its rank. */
  lemma StoredIdIsRank(users: map<nat, User>, acts: map<nat, Activity>)
    ensures var m := ById(LeaderboardOf(users, acts));
      forall k :: k in m ==> m[k].rank == k
  {
    var rows := LeaderboardOf(users, acts);
    var m := ById(rows);
    ByIdAt(rows);
    forall k | k in m ensures m[k].rank == k {
      assert m[(k - 1) + 1] == rows[k - 1];
    }
  }

  /**
   * Two users, the second with the higher total: the second is ranked first and the first second,
   * each with their own total as score.
   */
  lemma TwoUserBoard(users: map<nat, User>, acts: map<nat, Activity>, a: nat, b: nat)
    requires users.Keys == {a, b} && a != b && Score(acts, a) < Score(acts, b)
    ensures LeaderboardOf(users, acts) ==
      [LeaderboardEntry(b, Score(acts, b), 1), LeaderboardEntry(a, Score(acts, a), 2)]
  {
    var rows := [LeaderboardEntry(b, Score(acts, b), 1), LeaderboardEntry(a, Score(acts, a), 2)];
    TwoUserRows(users, acts, a, b, rows);
    LeaderboardDetermined(users, acts, rows);
  }

  lemma TwoUserRows(users: map<nat, User>, acts: map<nat, Activity>, a: nat, b: nat, rows: seq<LeaderboardEntry>)
    requires users.Keys == {a, b} && a != b && Score(acts, a) < Score(acts, b)
    requires rows == [LeaderboardEntry(b, Score(acts, b), 1), LeaderboardEntry(a, Score(acts, a), 2)]
    ensures IsLeaderboard(users, acts, rows)
  {
    forall u | u in users ensures exists i :: 0 <= i < |rows| && rows[i].user == u {
      if u == b {
        assert rows[0].user == u;
      } else {
        assert rows[1].user == u;
      }
    }
    forall i | 0 <= i < |rows|
      ensures rows[i].user in users && rows[i].score == Score(acts, rows[i].user) && rows[i].rank == i + 1
    {
      assert i == 0 || i == 1;
    }
    forall i, j | 0 <= i < j < |rows| ensures rows[i].score > rows[j].score {
      assert i == 0 && j == 1;
    }
  }

  /**
   * A user without activities is on the leaderboard with score 0, and nobody after them has a
   * positive score.
   */
  lemma IdleUserListed(users: map<nat, User>, acts: map<nat, Activity>, u: nat)
    requires u in users && forall k :: k in acts ==> acts[k].user != u
    ensures var rows := LeaderboardOf(users, acts);
      exists i :: 0 <= i < |rows| && rows[i] == LeaderboardEntry(u, 0, i + 1) && forall j :: i < j < |rows| ==> rows[j].score <= 0
  {
    LeaderboardFacts(users, acts);
    ScoreWithoutActivities(acts, u);
    IdleOnBoard(users, acts, LeaderboardOf(users, acts), u);
  }

  lemma IdleOnBoard(users: map<nat, User>, acts: map<nat, Activity>, rows: seq<LeaderboardEntry>, u: nat)
    requires IsLeaderboard(users, acts, rows) && u in users && Score(acts, u) == 0
    ensures exists i :: 0 <= i < |rows| && rows[i] == LeaderboardEntry(u, 0, i + 1) && forall j :: i < j < |rows| ==> rows[j].score <= 0
  {
    var i :| 0 <= i < |rows| && rows[i].user == u;
    assert rows[i] == LeaderboardEntry(u, 0, i + 1);
  }
}
