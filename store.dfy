/**
 * The entity store: five collections keyed by id, with the rules the model declarations put
 * on them. A user's email is unique; a user's team, an activity's user and a leaderboard
 * entry's user must exist; deleting a team clears the team of its members (SET_NULL);
 * deleting a user deletes its activities and leaderboard entries (CASCADE). Listing the
 * leaderboard orders it by rank.
 */
module EntityStore {
  import opened Wrappers
  import opened Models
  import Sorting

  datatype StoreError = NotFound | DuplicateKey(field: string) | ValidationError(field: string)

  /** The five collections, in the order the seeding routine clears them. */
  datatype Collection = Users | Teams | Activities | LeaderboardEntries | Workouts

  // Ids in ascending order (`order_by('id')`).

  ghost predicate StrictlyIncreasing(s: seq<nat>) {
    forall i, j :: 0 <= i < j < |s| ==> s[i] < s[j]
  }

  /** A non-empty set of ids has a least element. */
  lemma {:induction false} LeastElement(s: set<nat>) returns (m: nat)
    requires s != {}
    ensures m in s && forall y :: y in s ==> m <= y
  {
    var x :| x in s;
    if s == {x} {
      m := x;
    } else {
      var rest := LeastElement(s - {x});
      m := if x < rest then x else rest;
      forall y | y in s ensures m <= y {
        if y != x {
          assert y in s - {x};
        }
      }
    }
  }

  lemma MinExists(s: set<nat>)
    requires s != {}
    ensures exists m :: m in s && forall y :: y in s ==> m <= y
  {
    var m := LeastElement(s);
  }

  function MinOf(s: set<nat>): (m: nat)
    requires s != {}
    ensures m in s && forall y :: y in s ==> m <= y
  {
    MinExists(s);
    var m :| m in s && forall y :: y in s ==> m <= y; m
  }

  /** The ids of `s`, each once, smallest first. */
  function AscendingIds(s: set<nat>): (r: seq<nat>)
    ensures |r| == |s| && (forall x :: x in r <==> x in s) && StrictlyIncreasing(r)
    decreases s
  {
    if s == {} then []
    else
      var m := MinOf(s);
      var rest := AscendingIds(s - {m});
      ConsAscending(s, m, rest);
      [m] + rest
  }

  /** Putting the least element in front of an ascending listing of the others lists the whole set. */
  lemma ConsAscending(s: set<nat>, m: nat, rest: seq<nat>)
    requires m in s && forall y :: y in s ==> m <= y
    requires |rest| == |s - {m}| && (forall x :: x in rest <==> x in s - {m}) && StrictlyIncreasing(rest)
    ensures |[m] + rest| == |s| && (forall x :: x in [m] + rest <==> x in s) && StrictlyIncreasing([m] + rest)
  {
    var r := [m] + rest;
    forall i, j | 0 <= i < j < |r| ensures r[i] < r[j] {
      assert r[j] == rest[j - 1] && r[j] in s - {m};
      if i > 0 {
        assert r[i] == rest[i - 1];
      }
    }
  }

  /** The first element of an ascending listing of `s` is the least element of `s`. */
  lemma HeadIsMin(s: set<nat>, r: seq<nat>)
    requires r != [] && StrictlyIncreasing(r) && forall x :: x in r <==> x in s
    ensures s != {} && MinOf(s) == r[0]
  {
    assert r[0] in r;
    var m := MinOf(s);
    assert m in r;
    var k :| 0 <= k < |r| && r[k] == m;
    assert r[0] <= r[k];
  }

  /** Dropping the head of an ascending listing of `s` lists the rest of `s`. */
  lemma TailLists(s: set<nat>, r: seq<nat>)
    requires r != [] && StrictlyIncreasing(r) && forall x :: x in r <==> x in s
    ensures StrictlyIncreasing(r[1..]) && forall x :: x in r[1..] <==> x in s - {r[0]}
  {
    forall x ensures x in r[1..] <==> x in s - {r[0]} {
      if x in r[1..] {
        var k :| 0 <= k < |r| - 1 && r[1..][k] == x;
        assert r[k + 1] == x && r[0] < r[k + 1];
      }
      if x in s - {r[0]} {
        assert x in r;
        var k :| 0 <= k < |r| && r[k] == x;
        assert k != 0;
        assert r[1..][k - 1] == x;
      }
    }
  }

  lemma NothingListed(s: set<nat>)
    requires forall x :: x in [] <==> x in s
    ensures s == {}
  {
    assert forall x :: x !in s;
  }

  lemma ListingStep(s: set<nat>, r: seq<nat>)
    requires r != [] && s != {} && MinOf(s) == r[0] && AscendingIds(s - {r[0]}) == r[1..]
    ensures AscendingIds(s) == r
  {
    assert r == [r[0]] + r[1..];
  }

  /** Listing a set of ids in ascending order has exactly one result. */
  lemma {:induction false} AscendingIdsUnique(s: set<nat>, r: seq<nat>)
    requires StrictlyIncreasing(r) && forall x :: x in r <==> x in s
    ensures AscendingIds(s) == r
    decreases |r|
  {
    if r == [] {
      NothingListed(s);
    } else {
      HeadIsMin(s, r);
      TailLists(s, r);
      AscendingIdsUnique(s - {r[0]}, r[1..]);
      ListingStep(s, r);
    }
  }

  /** Records stored under the ids 1, 2, ..., n in list order (ids from a counter starting at 1). */
  function ById<T>(rows: seq<T>): (m: map<nat, T>)
    ensures forall k :: k in m <==> 1 <= k <= |rows|
  {
    if rows == [] then map[]
    else ById(rows[..|rows| - 1])[|rows| := rows[|rows| - 1]]
  }

  /** The record under id i + 1 is the i-th (0-based) of the list. */
  lemma {:induction false} ByIdAt<T>(rows: seq<T>)
    ensures forall i :: 0 <= i < |rows| ==> ById(rows)[i + 1] == rows[i]
  {
    if rows != [] {
      var n := |rows| - 1;
      ByIdAt(rows[..n]);
      forall i | 0 <= i < |rows| ensures ById(rows)[i + 1] == rows[i] {
        if i < n {
          assert rows[..n][i] == rows[i];
        }
      }
    }
  }

  /** Storing one more record under the next id. */
  lemma ByIdSnoc<T>(rows: seq<T>, x: T)
    ensures ById(rows + [x]) == ById(rows)[|rows| + 1 := x]
  {
    var r := rows + [x];
    assert r[..|r| - 1] == rows;
  }

  // Field rules and referential rules.

  /** No two users share an email. */
  ghost predicate EmailsUnique(users: map<nat, User>) {
    forall a, b :: a in users && b in users && users[a].email == users[b].email ==> a == b
  }

  predicate EmailTaken(users: map<nat, User>, email: string) {
    exists id :: id in users && users[id].email == email
  }

  predicate TeamRefOk(u: User, teams: map<nat, Team>) {
    u.team.Some? ==> u.team.value in teams
  }

  /** Why a team cannot be stored under `id`, if it cannot. */
  function TeamError(teams: map<nat, Team>, id: nat, t: Team): (e: Option<StoreError>)
    ensures e.None? <==> id !in teams && ValidTeam(t)
    ensures e.Some? && id !in teams ==> e.value.ValidationError?
  {
    if id in teams then Some(DuplicateKey("id"))
    else if !(0 < |t.name| <= TeamNameMax) then Some(ValidationError("name"))
    else if |t.description| > TeamDescriptionMax then Some(ValidationError("description"))
    else None
  }

  /** Why a user cannot be stored under `id`, if it cannot; a taken email is a duplicate key. */
  function UserError(users: map<nat, User>, teams: map<nat, Team>, id: nat, u: User): (e: Option<StoreError>)
    ensures e.None? <==> id !in users && !EmailTaken(users, u.email) && ValidUser(u) && TeamRefOk(u, teams)
    ensures id !in users && EmailTaken(users, u.email) ==> e == Some(DuplicateKey("email"))
  {
    if id in users then Some(DuplicateKey("id"))
    else if EmailTaken(users, u.email) then Some(DuplicateKey("email"))
    else if !(0 < |u.name| <= UserNameMax) then Some(ValidationError("name"))
    else if !(0 < |u.email| <= EmailMax) then Some(ValidationError("email"))
    else if |u.avatar| > AvatarMax then Some(ValidationError("avatar"))
    else if |u.fitnessLevel| > FitnessLevelMax then Some(ValidationError("fitness_level"))
    else if !TeamRefOk(u, teams) then Some(NotFound)
    else None
  }

  /** Why an activity cannot be stored under `id`, if it cannot. */
  function ActivityError(activities: map<nat, Activity>, users: map<nat, User>, id: nat, a: Activity): (e: Option<StoreError>)
    ensures e.None? <==> id !in activities && ValidActivity(a) && a.user in users
    ensures id !in activities && a.activityType !in ActivityTypes ==> e == Some(ValidationError("activity_type"))
  {
    if id in activities then Some(DuplicateKey("id"))
    else if a.activityType !in ActivityTypes then Some(ValidationError("activity_type"))
    else if |a.notes| > NotesMax then Some(ValidationError("notes"))
    else if a.user !in users then Some(NotFound)
    else None
  }

  /** Why a leaderboard entry cannot be stored under `id`, if it cannot. */
  function EntryError(leaderboard: map<nat, LeaderboardEntry>, users: map<nat, User>, id: nat, e: LeaderboardEntry): (r: Option<StoreError>)
    ensures r.None? <==> id !in leaderboard && e.user in users
  {
    if id in leaderboard then Some(DuplicateKey("id"))
    else if e.user !in users then Some(NotFound)
    else None
  }

  /** Why a workout cannot be stored under `id`, if it cannot. */
  function WorkoutError(workouts: map<nat, Workout>, id: nat, w: Workout): (e: Option<StoreError>)
    ensures e.None? <==> id !in workouts && ValidWorkout(w)
    ensures id !in workouts && w.difficulty !in Difficulties ==> e.Some? && e.value.ValidationError?
  {
    if id in workouts then Some(DuplicateKey("id"))
    else if !(0 < |w.name| <= WorkoutNameMax) then Some(ValidationError("name"))
    else if |w.description| > WorkoutDescriptionMax then Some(ValidationError("description"))
    else if w.difficulty !in Difficulties then Some(ValidationError("difficulty"))
    else None
  }

  // What deletions do to the other collections.

  /** SET_NULL: the users that referenced team `t` lose their team; nothing else changes. */
  function DetachTeam(users: map<nat, User>, t: nat): (r: map<nat, User>)
    ensures r.Keys == users.Keys
    ensures forall u :: u in r ==> r[u].team != Some(t)
    ensures forall u :: u in r ==> (r[u].team == users[u].team <==> users[u].team != Some(t))
    ensures forall u :: u in r ==> r[u].(team := users[u].team) == users[u]
  {
    map u | u in users :: if users[u].team == Some(t) then users[u].(team := None) else users[u]
  }

  /** After SET_NULL the members are still valid, still refer to existing teams and keep their emails. */
  lemma DetachKeepsUsersValid(users: map<nat, User>, teams: map<nat, Team>, t: nat)
    requires forall u :: u in users ==> ValidUser(users[u]) && TeamRefOk(users[u], teams)
    requires EmailsUnique(users)
    ensures var r := DetachTeam(users, t);
      && (forall u :: u in r ==> ValidUser(r[u]) && TeamRefOk(r[u], teams - {t}))
      && EmailsUnique(r)
  {
    var r := DetachTeam(users, t);
    forall u | u in r ensures r[u].email == users[u].email {
      assert r[u].(team := users[u].team) == users[u];
    }
  }

  /** CASCADE: the activities that do not belong to user `u`, unchanged. */
  function ActivitiesNotOf(activities: map<nat, Activity>, u: nat): (r: map<nat, Activity>)
    ensures forall k :: k in r <==> k in activities && activities[k].user != u
    ensures forall k :: k in r ==> r[k] == activities[k]
  {
    map k | k in activities && activities[k].user != u :: activities[k]
  }

  /** CASCADE: the leaderboard entries that do not belong to user `u`, unchanged. */
  function EntriesNotOf(leaderboard: map<nat, LeaderboardEntry>, u: nat): (r: map<nat, LeaderboardEntry>)
    ensures forall k :: k in r <==> k in leaderboard && leaderboard[k].user != u
    ensures forall k :: k in r ==> r[k] == leaderboard[k]
  {
    map k | k in leaderboard && leaderboard[k].user != u :: leaderboard[k]
  }

  /** After CASCADE the remaining activities and entries refer only to the remaining users. */
  lemma CascadeKeepsRefs(users: map<nat, User>, activities: map<nat, Activity>,
                         leaderboard: map<nat, LeaderboardEntry>, id: nat)
    requires forall a :: a in activities ==> ValidActivity(activities[a]) && activities[a].user in users
    requires forall e :: e in leaderboard ==> leaderboard[e].user in users
    requires EmailsUnique(users)
    ensures var r := ActivitiesNotOf(activities, id);
      forall a :: a in r ==> ValidActivity(r[a]) && r[a].user in users - {id}
    ensures var r := EntriesNotOf(leaderboard, id); forall e :: e in r ==> r[e].user in users - {id}
    ensures EmailsUnique(users - {id})
  {
  }

  function RankKey(p: (nat, LeaderboardEntry)): int { p.1.rank }

  /** The (id, entry) pairs of a leaderboard, in ascending id order. */
  function EntryPairs(leaderboard: map<nat, LeaderboardEntry>): (r: seq<(nat, LeaderboardEntry)>)
    ensures |r| == |leaderboard|
    ensures forall p: (nat, LeaderboardEntry) :: p in r <==> p.0 in leaderboard && leaderboard[p.0] == p.1
  {
    var ids := AscendingIds(leaderboard.Keys);
    var r := seq(|ids|, i requires 0 <= i < |ids| => (ids[i], leaderboard[ids[i]]));
    PairsListed(leaderboard, ids, r);
    r
  }

  lemma PairsListed(leaderboard: map<nat, LeaderboardEntry>, ids: seq<nat>, r: seq<(nat, LeaderboardEntry)>)
    requires forall x :: x in ids <==> x in leaderboard
    requires |r| == |ids| && forall i :: 0 <= i < |ids| ==> r[i] == (ids[i], leaderboard[ids[i]])
    ensures forall p: (nat, LeaderboardEntry) :: p in r <==> p.0 in leaderboard && leaderboard[p.0] == p.1
  {
    forall p: (nat, LeaderboardEntry) | p.0 in leaderboard && leaderboard[p.0] == p.1 ensures p in r {
      var i :| 0 <= i < |ids| && ids[i] == p.0;
      assert r[i] == p;
    }
  }

  /** The leaderboard as listed: every (id, entry) pair once, in ascending rank order. */
  function ListByRank(leaderboard: map<nat, LeaderboardEntry>): (r: seq<(nat, LeaderboardEntry)>)
    ensures |r| == |leaderboard|
    ensures forall p: (nat, LeaderboardEntry) :: p in r <==> p.0 in leaderboard && leaderboard[p.0] == p.1
    ensures forall i, j :: 0 <= i < j < |r| ==> r[i].1.rank <= r[j].1.rank
  {
    var pairs := EntryPairs(leaderboard);
    Sorting.SortFacts(pairs, RankKey);
    var r := Sorting.Sort(pairs, RankKey);
    assert forall p: (nat, LeaderboardEntry) :: p in r <==> p in multiset(pairs);
    r
  }

  class Store {
    var teams: map<nat, Team>
    var users: map<nat, User>
    var activities: map<nat, Activity>
    var leaderboard: map<nat, LeaderboardEntry>
    var workouts: map<nat, Workout>

    /** Every record is valid and every reference resolves. */
    ghost predicate Valid()
      reads this
    {
      && (forall t :: t in teams ==> ValidTeam(teams[t]))
      && (forall u :: u in users ==> ValidUser(users[u]) && TeamRefOk(users[u], teams))
      && EmailsUnique(users)
      && (forall a :: a in activities ==> ValidActivity(activities[a]) && activities[a].user in users)
      && (forall e :: e in leaderboard ==> leaderboard[e].user in users)
      && (forall w :: w in workouts ==> ValidWorkout(workouts[w]))
    }

    constructor ()
      ensures Valid()
      ensures teams == map[] && users == map[] && activities == map[]
      ensures leaderboard == map[] && workouts == map[]
    {
      teams, users, activities, leaderboard, workouts := map[], map[], map[], map[], map[];
    }

    /** Empties one collection directly, with no cascade to the others. */
    method DeleteMany(c: Collection)
      modifies this
      ensures users == (if c == Users then map[] else old(users))
      ensures teams == (if c == Teams then map[] else old(teams))
      ensures activities == (if c == Activities then map[] else old(activities))
      ensures leaderboard == (if c == LeaderboardEntries then map[] else old(leaderboard))
      ensures workouts == (if c == Workouts then map[] else old(workouts))
    {
      match c
      case Users => users := map[];
      case Teams => teams := map[];
      case Activities => activities := map[];
      case LeaderboardEntries => leaderboard := map[];
      case Workouts => workouts := map[];
    }

    /** Stores a new team; an omitted description is "". */
    method CreateTeam(id: nat, name: string, description: Option<string>, now: int)
      returns (r: Result<Team, StoreError>)
      requires Valid()
      modifies this
      ensures Valid()
      ensures var t := NewTeam(name, description, now);
        match TeamError(old(teams), id, t)
        case Some(e) => r == Failure(e) && teams == old(teams)
        case None => r == Success(t) && teams == old(teams)[id := t]
      ensures users == old(users) && activities == old(activities)
      ensures leaderboard == old(leaderboard) && workouts == old(workouts)
    {
      var t := NewTeam(name, description, now);
      var e := TeamError(teams, id, t);
      if e.Some? {
        return Failure(e.value);
      }
      teams := teams[id := t];
      r := Success(t);
    }

    /**
     * Stores a new user; an omitted avatar is "" and an omitted fitness level "beginner".
     * A user whose email is already taken is rejected and the store is left as it was.
     */
    method CreateUser(id: nat, name: string, email: string, team: Option<nat>,
                      avatar: Option<string>, fitnessLevel: Option<string>, now: int)
      returns (r: Result<User, StoreError>)
      requires Valid()
      modifies this
      ensures Valid()
      ensures var u := NewUser(name, email, team, avatar, fitnessLevel, now);
        match UserError(old(users), old(teams), id, u)
        case Some(e) => r == Failure(e) && users == old(users)
        case None => r == Success(u) && users == old(users)[id := u]
      ensures EmailTaken(old(users), email) ==> r.Failure? && users == old(users)
      ensures teams == old(teams) && activities == old(activities)
      ensures leaderboard == old(leaderboard) && workouts == old(workouts)
    {
      var u := NewUser(name, email, team, avatar, fitnessLevel, now);
      var e := UserError(users, teams, id, u);
      if e.Some? {
        return Failure(e.value);
      }
      users := users[id := u];
      r := Success(u);
    }

    /** Stores a new activity of an existing user; omitted notes are "". */
    method CreateActivity(id: nat, user: nat, activityType: string, duration: int, date: int,
                          notes: Option<string>)
      returns (r: Result<Activity, StoreError>)
      requires Valid()
      modifies this
      ensures Valid()
      ensures var a := NewActivity(user, activityType, duration, date, notes);
        match ActivityError(old(activities), old(users), id, a)
        case Some(e) => r == Failure(e) && activities == old(activities)
        case None => r == Success(a) && activities == old(activities)[id := a]
      ensures teams == old(teams) && users == old(users)
      ensures leaderboard == old(leaderboard) && workouts == old(workouts)
    {
      var a := NewActivity(user, activityType, duration, date, notes);
      var e := ActivityError(activities, users, id, a);
      if e.Some? {
        return Failure(e.value);
      }
      activities := activities[id := a];
      r := Success(a);
    }

    /** Stores a new leaderboard entry of an existing user; omitted score and rank are 0. */
    method CreateEntry(id: nat, user: nat, score: Option<int>, rank: Option<int>)
      returns (r: Result<LeaderboardEntry, StoreError>)
      requires Valid()
      modifies this
      ensures Valid()
      ensures var e := NewEntry(user, score, rank);
        match EntryError(old(leaderboard), old(users), id, e)
        case Some(err) => r == Failure(err) && leaderboard == old(leaderboard)
        case None => r == Success(e) && leaderboard == old(leaderboard)[id := e]
      ensures teams == old(teams) && users == old(users)
      ensures activities == old(activities) && workouts == old(workouts)
    {
      var e := NewEntry(user, score, rank);
      var err := EntryError(leaderboard, users, id, e);
      if err.Some? {
        return Failure(err.value);
      }
      leaderboard := leaderboard[id := e];
      r := Success(e);
    }

    /** Stores a new workout; omitted fields: description "", exercises [], difficulty "beginner". */
    method CreateWorkout(id: nat, name: string, description: Option<string>,
                         exercises: Option<seq<Exercise>>, difficulty: Option<string>)
      returns (r: Result<Workout, StoreError>)
      requires Valid()
      modifies this
      ensures Valid()
      ensures var w := NewWorkout(name, description, exercises, difficulty);
        match WorkoutError(old(workouts), id, w)
        case Some(e) => r == Failure(e) && workouts == old(workouts)
        case None => r == Success(w) && workouts == old(workouts)[id := w]
      ensures teams == old(teams) && users == old(users)
      ensures activities == old(activities) && leaderboard == old(leaderboard)
    {
      var w := NewWorkout(name, description, exercises, difficulty);
      var e := WorkoutError(workouts, id, w);
      if e.Some? {
        return Failure(e.value);
      }
      workouts := workouts[id := w];
      r := Success(w);
    }

    /** Deletes a team; its members stay, with no team. */
    method DeleteTeam(id: nat) returns (r: Result<(), StoreError>)
      requires Valid()
      modifies this
      ensures Valid()
      ensures id !in old(teams) ==> r == Failure(NotFound) && teams == old(teams) && users == old(users)
      ensures id in old(teams) ==> r == Success(()) && teams == old(teams) - {id} && users == DetachTeam(old(users), id)
      ensures activities == old(activities) && leaderboard == old(leaderboard) && workouts == old(workouts)
    {
      if id !in teams {
        return Failure(NotFound);
      }
      DetachKeepsUsersValid(users, teams, id);
      teams := teams - {id};
      users := DetachTeam(users, id);
      r := Success(());
    }

    /** Deletes a user together with its activities and its leaderboard entries. */
    method DeleteUser(id: nat) returns (r: Result<(), StoreError>)
      requires Valid()
      modifies this
      ensures Valid()
      ensures id !in old(users) ==>
        r == Failure(NotFound) && users == old(users)
        && activities == old(activities) && leaderboard == old(leaderboard)
      ensures id in old(users) ==>
        r == Success(()) && users == old(users) - {id}
        && activities == ActivitiesNotOf(old(activities), id)
        && leaderboard == EntriesNotOf(old(leaderboard), id)
      ensures teams == old(teams) && workouts == old(workouts)
    {
      if id !in users {
        return Failure(NotFound);
      }
      CascadeKeepsRefs(users, activities, leaderboard, id);
      users := users - {id};
      activities := ActivitiesNotOf(activities, id);
      leaderboard := EntriesNotOf(leaderboard, id);
      r := Success(());
    }

    /** Lists the leaderboard: each (id, entry) pair once, by ascending rank. */
    method ListLeaderboard() returns (r: seq<(nat, LeaderboardEntry)>)
      ensures r == ListByRank(leaderboard)
    {
      r := ListByRank(leaderboard);
    }
  }
}
