/**
 * The `populate_db` management command: empty all five collections, store the two teams, the
 * ten users, five to ten activities per user under consecutive ids, recompute the leaderboard
 * and store the seven workouts. Random draws and clock readings arrive as parameters.
 */
module PopulateDb {
  import opened Wrappers
  import opened Numerals
  import opened Models
  import opened EntityStore
  import opened Ranking

  /** The activity types the seeder draws from (five of the seven choices). */
  const SeedActivityTypes: seq<string> := ["running", "cycling", "swimming", "strength_training", "yoga"]

  /** They are the first five of the seven choices. */
  lemma SeedTypesAreChoices()
    ensures SeedActivityTypes == ActivityTypes[..5]
  {
  }

  /**
   * What the random generator and the clock gave for one seeded activity: the position
   * `random.choice` picked in the list of types, the drawn duration and day offset, and the
   * clock reading.
   */
  datatype Draw = Draw(typeIndex: TypeIndex, duration: int, daysAgo: int, clock: int)

  /** A position in the list of seeded activity types. */
  newtype TypeIndex = k: int | 0 <= k < 5

  /** The ranges `random.randint` draws from. */
  predicate ValidDraw(d: Draw) {
    15 <= d.duration <= 120 && 0 <= d.daysAgo <= 30
  }

  /** The activity's timestamp: `daysAgo` whole days (86400 seconds each) before the clock reading. */
  function DrawnDate(d: Draw): int {
    d.clock - 86400 * d.daysAgo
  }

  /** The type `random.choice` picked. */
  function DrawnType(d: Draw): (t: string)
    ensures t in SeedActivityTypes
  {
    SeedActivityTypes[d.typeIndex]
  }

  /** One list of draws per user, each of length 5 to 10. */
  predicate ValidDraws(draws: seq<seq<Draw>>, userCount: nat) {
    && |draws| == userCount
    && (forall i :: 0 <= i < |draws| ==> 5 <= |draws[i]| <= 10)
    && (forall i, j :: 0 <= i < |draws| && 0 <= j < |draws[i]| ==> ValidDraw(draws[i][j]))
  }

  // The fixed catalogue.

  datatype SeedUser = SeedUser(id: nat, name: string, email: string, team: nat, avatar: string, fitnessLevel: string)

  const SeedUsers: seq<SeedUser> := [
    SeedUser(1, "Tony Stark", "ironman@avengers.com", 1, "\U{1F9BE}", "advanced"),
    SeedUser(2, "Steve Rogers", "captain@avengers.com", 1, "\U{1F6E1}\U{FE0F}", "advanced"),
    SeedUser(3, "Natasha Romanoff", "blackwidow@avengers.com", 1, "\U{1F577}\U{FE0F}", "advanced"),
    SeedUser(4, "Bruce Banner", "hulk@avengers.com", 1, "\U{1F49A}", "advanced"),
    SeedUser(5, "Thor Odinson", "thor@asgard.com", 1, "\U{26A1}", "god-tier"),
    SeedUser(6, "Clark Kent", "superman@justiceleague.com", 2, "\U{1F9B8}", "god-tier"),
    SeedUser(7, "Bruce Wayne", "batman@gotham.com", 2, "\U{1F987}", "advanced"),
    SeedUser(8, "Diana Prince", "wonderwoman@themyscira.com", 2, "\U{2B50}", "god-tier"),
    SeedUser(9, "Barry Allen", "flash@speedforce.com", 2, "\U{26A1}", "advanced"),
    SeedUser(10, "Arthur Curry", "aquaman@atlantis.com", 2, "\U{1F531}", "advanced")
  ]

  const SeedWorkouts: seq<Workout> := [
    Workout("Super Soldier Circuit",
      "Captain America's legendary training routine",
      [Exercise("Push-ups", Some(50), Some(4), None, None),
       Exercise("Pull-ups", Some(20), Some(4), None, None),
       Exercise("Squats", Some(50), Some(4), None, None),
       Exercise("Burpees", Some(30), Some(3), None, None)],
      "advanced"),
    Workout("Speedster Sprint Training",
      "Barry Allen's speed-building workout",
      [Exercise("Sprint Intervals", None, Some(10), Some("30 sec"), None),
       Exercise("High Knees", None, Some(5), Some("1 min"), None),
       Exercise("Mountain Climbers", Some(40), Some(4), None, None)],
      "intermediate"),
    Workout("Amazonian Warrior Training",
      "Wonder Woman's combat conditioning",
      [Exercise("Sword Swings (weighted)", Some(30), Some(5), None, None),
       Exercise("Shield Holds", None, Some(3), Some("2 min"), None),
       Exercise("Battle Rope", None, Some(5), Some("1 min"), None),
       Exercise("Box Jumps", Some(25), Some(4), None, None)],
      "advanced"),
    Workout("Atlantean Swim Power",
      "Aquaman's underwater endurance training",
      [Exercise("Freestyle Swimming", None, Some(3), None, Some("1000m")),
       Exercise("Underwater Breath Hold", None, Some(5), Some("2 min"), None),
       Exercise("Treading Water", None, Some(3), Some("5 min"), None)],
      "intermediate"),
    Workout("Zen Master Flow",
      "Black Widow's flexibility and balance routine",
      [Exercise("Sun Salutations", Some(10), Some(3), None, None),
       Exercise("Warrior Poses", None, Some(3), Some("1 min each"), None),
       Exercise("Tree Pose", None, Some(3), Some("1 min"), None),
       Exercise("Cobra Stretch", None, Some(4), Some("30 sec"), None)],
      "beginner"),
    Workout("Dark Knight Conditioning",
      "Batman's stealth and agility training",
      [Exercise("Parkour Drills", None, Some(1), Some("10 min"), None),
       Exercise("Rope Climbing", Some(10), Some(3), None, None),
       Exercise("Handstand Push-ups", Some(15), Some(3), None, None),
       Exercise("Ninja Rolls", Some(20), Some(4), None, None)],
      "advanced"),
    Workout("Arc Reactor Cardio",
      "Iron Man's heart-healthy workout",
      [Exercise("Cycling", None, Some(1), Some("20 min"), None),
       Exercise("Jumping Jacks", Some(50), Some(3), None, None),
       Exercise("Step-ups", Some(30), Some(4), None, None)],
      "intermediate")
  ]

  // The records the seeder stores.

  /** The two teams, stored under ids 1 and 2. */
  function TeamRecords(now: int): seq<Team> {
    [Team("Team Marvel", "Earth's Mightiest Heroes", now), Team("Team DC", "Justice League United", now)]
  }

  function UserRecord(row: SeedUser, now: int): User {
    User(row.name, row.email, Some(row.team), row.avatar, row.fitnessLevel, now)
  }

  function UserRecords(now: int): seq<User> {
    seq(|SeedUsers|, i requires 0 <= i < |SeedUsers| => UserRecord(SeedUsers[i], now))
  }

  /** The ids 1, 2, ..., n in ascending order. */
  function IdRange(n: nat): (r: seq<nat>)
    ensures |r| == n && forall i :: 0 <= i < n ==> r[i] == i + 1
  {
    seq(n, i requires 0 <= i < n => i + 1)
  }

  /** The note of the k-th activity of a user. */
  function SessionNote(k: nat): string {
    "Great workout session #" + NatToString(k)
  }

  /** The j-th (0-based) activity of user `uid`: stamped `daysAgo` days before the clock reading. */
  function SeedActivity(uid: nat, d: Draw, j: nat): Activity {
    Activity(uid, DrawnType(d), d.duration, DrawnDate(d), SessionNote(j + 1))
  }

  function UserActivities(uid: nat, ds: seq<Draw>): (r: seq<Activity>)
    ensures |r| == |ds|
    ensures forall j :: 0 <= j < |ds| ==> r[j] == SeedActivity(uid, ds[j], j)
  {
    seq(|ds|, j requires 0 <= j < |ds| => SeedActivity(uid, ds[j], j))
  }

  /** All seeded activities: user by user in the order of `ids`, each user's in draw order. */
  function SeedActivities(ids: seq<nat>, draws: seq<seq<Draw>>): seq<Activity>
    requires |ids| == |draws|
  {
    if ids == [] then []
    else
      var n := |ids| - 1;
      SeedActivities(ids[..n], draws[..n]) + UserActivities(ids[n], draws[n])
  }

  // Facts about the catalogue.

  /** The user rows carry the ids 1..10, five users per team, and satisfy the field rules. */
  lemma SeedUserFacts(i: nat, now: int)
    requires i < |SeedUsers|
    ensures |SeedUsers| == 10
    ensures SeedUsers[i].id == i + 1
    ensures SeedUsers[i].team == (if i < 5 then 1 else 2)
    ensures ValidUser(UserRecord(SeedUsers[i], now))
  {
  }

  /** Every workout row satisfies the field rules. */
  lemma SeedWorkoutsValid()
    ensures |SeedWorkouts| == 7
    ensures forall i :: 0 <= i < |SeedWorkouts| ==> ValidWorkout(SeedWorkouts[i])
  {
  }

  /** The ids of the users on team `t`. */
  function TeamRoster(users: map<nat, User>, t: nat): (r: set<nat>)
    ensures forall k :: k in r <==> k in users && users[k].team == Some(t)
  {
    set k | k in users && users[k].team == Some(t)
  }

  /** Users 1 to 5 are on the first team and users 6 to 10 on the second. */
  lemma SeededTeams(now: int)
    ensures forall k :: k in ById(UserRecords(now)) <==> 1 <= k <= 10
    ensures forall k :: k in ById(UserRecords(now)) ==>
      ById(UserRecords(now))[k].team == Some(if k <= 5 then 1 else 2)
  {
    var rows := UserRecords(now);
    ByIdAt(rows);
    forall k | 1 <= k <= 10 ensures ById(rows)[k].team == Some(if k <= 5 then 1 else 2) {
      SeedUserFacts(k - 1, now);
      assert ById(rows)[k] == rows[k - 1] == UserRecord(SeedUsers[k - 1], now);
    }
  }

  lemma RosterSplit(users: map<nat, User>)
    requires forall k :: k in users <==> 1 <= k <= 10
    requires forall k :: k in users ==> users[k].team == Some(if k <= 5 then 1 else 2)
    ensures TeamRoster(users, 1) == {1, 2, 3, 4, 5}
    ensures TeamRoster(users, 2) == {6, 7, 8, 9, 10}
  {
  }

  /**
   * The seeded collections hold teams 1 and 2, users 1 to 10 and workouts 1 to 7, and each team
   * has five members: users 1 to 5 and users 6 to 10.
   */
  lemma SeededRoster(now: int)
    ensures forall k :: k in ById(TeamRecords(now)) <==> k == 1 || k == 2
    ensures forall k :: k in ById(UserRecords(now)) <==> 1 <= k <= 10
    ensures forall k :: k in ById(SeedWorkouts) <==> 1 <= k <= 7
    ensures TeamRoster(ById(UserRecords(now)), 1) == {1, 2, 3, 4, 5}
    ensures TeamRoster(ById(UserRecords(now)), 2) == {6, 7, 8, 9, 10}
  {
    SeededTeams(now);
    RosterSplit(ById(UserRecords(now)));
  }

  // Facts about the seeded activities.

  /** The activities of user `u` in `acts`, in list order. */
  function ActivitiesOf(acts: seq<Activity>, u: nat): seq<Activity> {
    if acts == [] then []
    else
      var n := |acts| - 1;
      ActivitiesOf(acts[..n], u) + (if acts[n].user == u then [acts[n]] else [])
  }

  lemma {:induction false} ActivitiesOfAppend(a: seq<Activity>, b: seq<Activity>, u: nat)
    ensures ActivitiesOf(a + b, u) == ActivitiesOf(a, u) + ActivitiesOf(b, u)
    decreases |b|
  {
    if b != [] {
      var n := |b| - 1;
      assert (a + b)[..|a + b| - 1] == a + b[..n];
      ActivitiesOfAppend(a, b[..n], u);
    } else {
      assert a + b == a;
    }
  }

  /** A list in which every activity belongs to `v` holds all of them for `v` and none for anyone else. */
  lemma {:induction false} ActivitiesOfOneUser(acts: seq<Activity>, v: nat, u: nat)
    requires forall k :: 0 <= k < |acts| ==> acts[k].user == v
    ensures ActivitiesOf(acts, u) == if u == v then acts else []
    decreases |acts|
  {
    if acts != [] {
      var n := |acts| - 1;
      ActivitiesOfOneUser(acts[..n], v, u);
      assert acts == acts[..n] + [acts[n]];
    }
  }

  lemma ValidDrawsPrefix(draws: seq<seq<Draw>>, userCount: nat, n: nat)
    requires ValidDraws(draws, userCount) && n <= userCount
    ensures ValidDraws(draws[..n], n)
  {
    forall i, j | 0 <= i < n && 0 <= j < |draws[..n][i]| ensures ValidDraw(draws[..n][i][j]) {
      assert draws[..n][i] == draws[i];
    }
  }

  /** Five to ten draws per user give five to ten activities per user. */
  lemma {:induction false} SeedActivitiesCount(ids: seq<nat>, draws: seq<seq<Draw>>)
    requires ValidDraws(draws, |ids|)
    ensures 5 * |ids| <= |SeedActivities(ids, draws)| <= 10 * |ids|
    decreases |ids|
  {
    if ids != [] {
      var n := |ids| - 1;
      ValidDrawsPrefix(draws, |ids|, n);
      SeedActivitiesCount(ids[..n], draws[..n]);
    }
  }

  /** Every seeded activity belongs to a listed user. */
  lemma {:induction false} SeedActivitiesUsers(ids: seq<nat>, draws: seq<seq<Draw>>)
    requires |ids| == |draws|
    ensures forall k :: 0 <= k < |SeedActivities(ids, draws)| ==> SeedActivities(ids, draws)[k].user in ids
    decreases |ids|
  {
    if ids != [] {
      var n := |ids| - 1;
      var front: seq<Activity> := SeedActivities(ids[..n], draws[..n]);
      var mine: seq<Activity> := UserActivities(ids[n], draws[n]);
      SeedActivitiesUsers(ids[..n], draws[..n]);
      assert SeedActivities(ids, draws) == front + mine;
      forall k | 0 <= k < |front + mine| ensures (front + mine)[k].user in ids {
        if k < |front| {
          assert front[k].user in ids[..n];
          assert (front + mine)[k] == front[k];
        } else {
          assert (front + mine)[k] == mine[k - |front|];
          assert ids[n] in ids;
        }
      }
    }
  }

  predicate ValidSeedFields(a: Activity) {
    a.activityType in SeedActivityTypes && 15 <= a.duration <= 120 && |a.notes| <= NotesMax
  }

  /** Every seeded activity has a seeded type, a duration from 15 to 120 and notes within the limit. */
  lemma {:induction false} SeedActivitiesFields(ids: seq<nat>, draws: seq<seq<Draw>>)
    requires ValidDraws(draws, |ids|)
    ensures forall k :: 0 <= k < |SeedActivities(ids, draws)| ==> ValidSeedFields(SeedActivities(ids, draws)[k])
    decreases |ids|
  {
    if ids != [] {
      var n := |ids| - 1;
      var front: seq<Activity> := SeedActivities(ids[..n], draws[..n]);
      var mine: seq<Activity> := UserActivities(ids[n], draws[n]);
      ValidDrawsPrefix(draws, |ids|, n);
      SeedActivitiesFields(ids[..n], draws[..n]);
      assert SeedActivities(ids, draws) == front + mine;
      forall k | 0 <= k < |front + mine| ensures ValidSeedFields((front + mine)[k]) {
        if k < |front| {
          assert (front + mine)[k] == front[k];
        } else {
          var j := k - |front|;
          assert (front + mine)[k] == mine[j];
          assert ValidDraw(draws[n][j]);
          SessionNoteFits(j + 1);
        }
      }
    }
  }

  /** Every seeded activity belongs to a listed user and carries drawn values in their ranges. */
  lemma SeedActivitiesValues(ids: seq<nat>, draws: seq<seq<Draw>>)
    requires ValidDraws(draws, |ids|)
    ensures var acts := SeedActivities(ids, draws);
      && 5 * |ids| <= |acts| <= 10 * |ids|
      && forall k :: 0 <= k < |acts| ==>
           && acts[k].user in ids
           && acts[k].activityType in SeedActivityTypes
           && 15 <= acts[k].duration <= 120
           && |acts[k].notes| <= NotesMax
  {
    SeedActivitiesCount(ids, draws);
    SeedActivitiesUsers(ids, draws);
    SeedActivitiesFields(ids, draws);
  }

  /**
   * With distinct listed users, the activities of the i-th user are exactly that user's block:
   * one per draw, in draw order, the j-th with note number j + 1.
   */
  lemma {:induction false} SeedActivitiesOfUser(ids: seq<nat>, draws: seq<seq<Draw>>, i: nat)
    requires |ids| == |draws| && i < |ids|
    requires forall a :: 0 <= a < |ids| && a != i ==> ids[a] != ids[i]
    ensures ActivitiesOf(SeedActivities(ids, draws), ids[i]) == UserActivities(ids[i], draws[i])
    decreases |ids|
  {
    var n := |ids| - 1;
    var u := ids[i];
    var front: seq<Activity> := SeedActivities(ids[..n], draws[..n]);
    var mine: seq<Activity> := UserActivities(ids[n], draws[n]);
    assert SeedActivities(ids, draws) == front + mine;
    ActivitiesOfAppend(front, mine, u);
    ActivitiesOfOneUser(mine, ids[n], u);
    if i < n {
      assert ids[n] != u;
      assert ids[..n][i] == u && draws[..n][i] == draws[i];
      SeedActivitiesOfUser(ids[..n], draws[..n], i);
      assert ActivitiesOf(front, u) + [] == ActivitiesOf(front, u);
    } else {
      assert u !in ids[..n] by {
        forall a | 0 <= a < n ensures ids[..n][a] != u { assert ids[a] != ids[i]; }
      }
      NoneOfUser(ids[..n], draws[..n], u);
      assert [] + mine == mine;
    }
  }

  /** A user not listed has no seeded activities. */
  lemma {:induction false} NoneOfUser(ids: seq<nat>, draws: seq<seq<Draw>>, u: nat)
    requires |ids| == |draws| && u !in ids
    ensures ActivitiesOf(SeedActivities(ids, draws), u) == []
    decreases |ids|
  {
    if ids != [] {
      var n := |ids| - 1;
      ActivitiesOfAppend(SeedActivities(ids[..n], draws[..n]), UserActivities(ids[n], draws[n]), u);
      ActivitiesOfOneUser(UserActivities(ids[n], draws[n]), ids[n], u);
      assert u !in ids[..n];
      NoneOfUser(ids[..n], draws[..n], u);
    }
  }

  /** Each seeded user has five to ten activities, numbered 1, 2, ... in its notes. */
  lemma SeededUserActivities(draws: seq<seq<Draw>>, i: nat)
    requires ValidDraws(draws, |SeedUsers|) && i < |SeedUsers|
    ensures var mine := ActivitiesOf(SeedActivities(IdRange(|SeedUsers|), draws), i + 1);
      && 5 <= |mine| <= 10
      && forall j :: 0 <= j < |mine| ==> mine[j].user == i + 1 && mine[j].notes == SessionNote(j + 1)
  {
    var ids := IdRange(|SeedUsers|);
    SeedActivitiesOfUser(ids, draws, i);
  }

  // Scores of stored activity lists.

  /** The total duration of a list of activities. */
  function TotalOf(acts: seq<Activity>): int {
    if acts == [] then 0 else TotalOf(acts[..|acts| - 1]) + acts[|acts| - 1].duration
  }

  lemma {:induction false} DurationSumById(rows: seq<Activity>, n: nat, u: nat)
    requires n <= |rows|
    ensures forall i :: 0 <= i < n ==> IdRange(n)[i] in ById(rows)
    ensures DurationSum(ById(rows), IdRange(n), u) == TotalOf(ActivitiesOf(rows[..n], u))
  {
    if n > 0 {
      DurationSumById(rows, n - 1, u);
      DurationSumLastId(rows, n, u);
      TotalOfLast(rows, n, u);
    }
  }

  /** The sum over ids 1..n adds the n-th record's part to the sum over ids 1..n-1. */
  lemma DurationSumLastId(rows: seq<Activity>, n: nat, u: nat)
    requires 0 < n <= |rows|
    ensures forall i :: 0 <= i < n ==> IdRange(n)[i] in ById(rows)
    ensures DurationSum(ById(rows), IdRange(n), u)
      == DurationSum(ById(rows), IdRange(n - 1), u) + (if rows[n - 1].user == u then rows[n - 1].duration else 0)
  {
    assert IdRange(n)[..n - 1] == IdRange(n - 1);
    ByIdAt(rows);
    assert ById(rows)[n] == rows[n - 1];
  }

  /** The total of a user's activities among the first n adds the n-th one's part. */
  lemma TotalOfLast(rows: seq<Activity>, n: nat, u: nat)
    requires 0 < n <= |rows|
    ensures TotalOf(ActivitiesOf(rows[..n], u))
      == TotalOf(ActivitiesOf(rows[..n - 1], u)) + (if rows[n - 1].user == u then rows[n - 1].duration else 0)
  {
    assert rows[..n][..n - 1] == rows[..n - 1];
    var front := ActivitiesOf(rows[..n - 1], u);
    if rows[n - 1].user == u {
      assert (front + [rows[n - 1]])[..|front|] == front;
    } else {
      assert front + [] == front;
    }
  }

  /**
   * Stored under ids 1, 2, ..., a list of activities gives each user the total duration of that
   * user's activities in the list.
   */
  lemma ScoreOfRows(rows: seq<Activity>, u: nat)
    ensures Score(ById(rows), u) == TotalOf(ActivitiesOf(rows, u))
  {
    AscendingIdsOfById(rows);
    DurationSumById(rows, |rows|, u);
    assert rows[..|rows|] == rows;
  }

  lemma {:induction false} TotalBounds(acts: seq<Activity>)
    requires forall k :: 0 <= k < |acts| ==> 15 <= acts[k].duration <= 120
    ensures 15 * |acts| <= TotalOf(acts) <= 120 * |acts|
  {
    if acts != [] {
      TotalBounds(acts[..|acts| - 1]);
    }
  }

  /**
   * After seeding, user i + 1's score is the total of that user's drawn durations, between 75 and
   * 1200.
   */
  lemma SeededScore(draws: seq<seq<Draw>>, i: nat)
    requires ValidDraws(draws, |SeedUsers|) && i < |SeedUsers|
    ensures var acts := SeedActivities(IdRange(|SeedUsers|), draws);
      && Score(ById(acts), i + 1) == TotalOf(UserActivities(i + 1, draws[i]))
      && 75 <= Score(ById(acts), i + 1) <= 1200
  {
    ScoreOfSeeded(|SeedUsers|, draws, i);
  }

  lemma ScoreOfSeeded(n: nat, draws: seq<seq<Draw>>, i: nat)
    requires ValidDraws(draws, n) && i < n
    ensures var acts := SeedActivities(IdRange(n), draws);
      && Score(ById(acts), i + 1) == TotalOf(UserActivities(i + 1, draws[i]))
      && 75 <= Score(ById(acts), i + 1) <= 1200
  {
    SeededScoreIsTotal(n, draws, i);
    UserTotalBounds(i + 1, draws[i]);
  }

  lemma SeededScoreIsTotal(n: nat, draws: seq<seq<Draw>>, i: nat)
    requires |draws| == n && i < n
    ensures Score(ById(SeedActivities(IdRange(n), draws)), i + 1) == TotalOf(UserActivities(i + 1, draws[i]))
  {
    var ids := IdRange(n);
    var acts := SeedActivities(ids, draws);
    IdRangeDistinct(n, i);
    SeedActivitiesOfUser(ids, draws, i);
    ScoreOfRows(acts, i + 1);
  }

  lemma IdRangeDistinct(n: nat, i: nat)
    requires i < n
    ensures IdRange(n)[i] == i + 1
    ensures forall a :: 0 <= a < n && a != i ==> IdRange(n)[a] != IdRange(n)[i]
  {
  }

  /** Drawn durations from 15 to 120 add up to between 15 and 120 times their number. */
  lemma UserTotalBounds(uid: nat, ds: seq<Draw>)
    requires forall j :: 0 <= j < |ds| ==> ValidDraw(ds[j])
    ensures 15 * |ds| <= TotalOf(UserActivities(uid, ds)) <= 120 * |ds|
  {
    var mine := UserActivities(uid, ds);
    forall k | 0 <= k < |mine| ensures 15 <= mine[k].duration <= 120 {
      assert ValidDraw(ds[k]);
    }
    TotalBounds(mine);
  }

  // The command, step by step.

  predicate IsEmpty(store: Store, c: Collection)
    reads store
  {
    match c
    case Users => store.users == map[]
    case Teams => store.teams == map[]
    case Activities => store.activities == map[]
    case LeaderboardEntries => store.leaderboard == map[]
    case Workouts => store.workouts == map[]
  }

  /** Empties the five collections, whatever they held. */
  method ClearCollections(store: Store)
    modifies store
    ensures store.users == map[] && store.teams == map[] && store.activities == map[]
    ensures store.leaderboard == map[] && store.workouts == map[]
    ensures store.Valid()
  {
    var collections := [Users, Teams, Activities, LeaderboardEntries, Workouts];
    for i := 0 to |collections|
      invariant forall k :: 0 <= k < i ==> IsEmpty(store, collections[k])
    {
      store.DeleteMany(collections[i]);
    }
    assert IsEmpty(store, collections[0]) && IsEmpty(store, collections[1]) && IsEmpty(store, collections[2]);
    assert IsEmpty(store, collections[3]) && IsEmpty(store, collections[4]);
  }

  /** Stores the two teams under ids 1 and 2. */
  method InsertTeams(store: Store, now: int)
    requires store.Valid() && store.teams == map[]
    modifies store
    ensures store.Valid()
    ensures store.teams == ById(TeamRecords(now))
    ensures store.users == old(store.users) && store.activities == old(store.activities)
    ensures store.leaderboard == old(store.leaderboard) && store.workouts == old(store.workouts)
  {
    var marvel := store.CreateTeam(1, "Team Marvel", Some("Earth's Mightiest Heroes"), now);
    var dc := store.CreateTeam(2, "Team DC", Some("Justice League United"), now);
    var rows := TeamRecords(now);
    ByIdSnoc([], rows[0]);
    ByIdSnoc([rows[0]], rows[1]);
    assert rows == [rows[0]] + [rows[1]];
  }

  /** No two user rows share an email. */
  lemma SeedEmailsDistinct(now: int)
    ensures forall a, b :: 0 <= a < b < |UserRecords(now)| ==> UserRecords(now)[a].email != UserRecords(now)[b].email
  {
  }

  /** With distinct emails, the i-th row's email is not taken by the rows stored before it. */
  lemma EmailFree(users: map<nat, User>, rows: seq<User>, i: nat)
    requires i < |rows| && users == ById(rows[..i])
    requires forall a, b :: 0 <= a < b < |rows| ==> rows[a].email != rows[b].email
    ensures !EmailTaken(users, rows[i].email)
  {
    ByIdAt(rows[..i]);
    forall k | k in users ensures users[k].email != rows[i].email {
      assert users[(k - 1) + 1] == rows[k - 1];
    }
  }

  /** The i-th user row can be stored after the first i, and storing it extends the prefix. */
  lemma UserRowInsertable(users: map<nat, User>, teams: map<nat, Team>, i: nat, now: int)
    requires i < |SeedUsers|
    requires users == ById(UserRecords(now)[..i]) && teams == ById(TeamRecords(now))
    ensures var row := SeedUsers[i];
      var u := NewUser(row.name, row.email, Some(row.team), Some(row.avatar), Some(row.fitnessLevel), now);
      && u == UserRecords(now)[i]
      && UserError(users, teams, row.id, u) == None
      && ById(UserRecords(now)[..i + 1]) == users[row.id := u]
  {
    SeedUserFacts(i, now);
    var rows := UserRecords(now);
    SeedEmailsDistinct(now);
    EmailFree(users, rows, i);
    assert TeamRefOk(rows[i], teams);
    ByIdSnoc(rows[..i], rows[i]);
    assert rows[..i + 1] == rows[..i] + [rows[i]];
  }

  /** Stores the ten users under their own ids, each in its team. */
  method InsertUsers(store: Store, now: int)
    requires store.Valid() && store.users == map[] && store.teams == ById(TeamRecords(now))
    modifies store
    ensures store.Valid()
    ensures store.users == ById(UserRecords(now))
    ensures store.teams == old(store.teams) && store.activities == old(store.activities)
    ensures store.leaderboard == old(store.leaderboard) && store.workouts == old(store.workouts)
  {
    for i := 0 to |SeedUsers|
      invariant store.Valid()
      invariant store.users == ById(UserRecords(now)[..i])
      invariant store.teams == old(store.teams) && store.activities == old(store.activities)
      invariant store.leaderboard == old(store.leaderboard) && store.workouts == old(store.workouts)
    {
      var row := SeedUsers[i];
      UserRowInsertable(store.users, store.teams, i, now);
      var r := store.CreateUser(row.id, row.name, row.email, Some(row.team), Some(row.avatar), Some(row.fitnessLevel), now);
    }
    assert UserRecords(now)[..|SeedUsers|] == UserRecords(now);
  }

  /** The activities of the first i users, then user i's own in draw order. */
  lemma SeedActivitiesStep(ids: seq<nat>, draws: seq<seq<Draw>>, i: nat)
    requires |ids| == |draws| && i < |ids|
    ensures SeedActivities(ids[..i + 1], draws[..i + 1])
      == SeedActivities(ids[..i], draws[..i]) + UserActivities(ids[i], draws[i])
  {
    assert ids[..i + 1][..i] == ids[..i];
    assert draws[..i + 1][..i] == draws[..i];
  }

  /** A seeded note fits the 500-character bound. */
  lemma SessionNoteFits(k: nat)
    requires 1 <= k <= 10
    ensures |SessionNote(k)| <= NotesMax
  {
    NatToStringLength(k);
  }

  lemma PrefixSnoc<T>(front: seq<T>, s: seq<T>, j: nat)
    requires j < |s|
    ensures front + s[..j + 1] == (front + s[..j]) + [s[j]]
  {
    assert s[..j + 1] == s[..j] + [s[j]];
  }

  /** The store accepts a user's j-th seeded activity under a fresh id. */
  lemma SeedActivityAccepted(acts: map<nat, Activity>, users: map<nat, User>, user: nat, d: Draw, j: nat, id: nat)
    requires id !in acts && user in users && j < 10
    ensures var a := NewActivity(user, DrawnType(d), d.duration, DrawnDate(d),
                                 Some(SessionNote(j + 1)));
      a == SeedActivity(user, d, j) && ActivityError(acts, users, id, a) == None
  {
    SeedTypesAreChoices();
    OneOfIsIn(DrawnType(d), ActivityTypes);
    SessionNoteFits(j + 1);
  }

  /**
   * Stores the j-th (0-based) activity of a user, built from one draw, under the id that follows
   * the activities stored so far.
   */
  method StoreSeedActivity(store: Store, user: nat, d: Draw, j: nat, id: nat, ghost stored: seq<Activity>)
    requires store.Valid() && user in store.users && j < 10
    requires store.activities == ById(stored) && id == |stored| + 1
    modifies store
    ensures store.Valid()
    ensures store.activities == ById(stored + [SeedActivity(user, d, j)])
    ensures store.teams == old(store.teams) && store.users == old(store.users)
    ensures store.leaderboard == old(store.leaderboard) && store.workouts == old(store.workouts)
  {
    var activityDate := DrawnDate(d);
    SeedActivityAccepted(store.activities, store.users, user, d, j, id);
    ByIdSnoc(stored, SeedActivity(user, d, j));
    var r := store.CreateActivity(id, user, DrawnType(d), d.duration, activityDate, Some(SessionNote(j + 1)));
  }

  /** The inner loop: one user's activities, stored under the next ids of the counter. */
  method InsertUserActivities(store: Store, user: nat, ds: seq<Draw>, activityId: nat, created: nat,
                              ghost front: seq<Activity>)
    returns (activityId': nat, created': nat)
    requires store.Valid() && user in store.users
    requires |ds| <= 10
    requires store.activities == ById(front) && created == |front| && activityId == created + 1
    modifies store
    ensures store.Valid()
    ensures store.activities == ById(front + UserActivities(user, ds))
    ensures created' == created + |ds| && activityId' == created' + 1
    ensures store.teams == old(store.teams) && store.users == old(store.users)
    ensures store.leaderboard == old(store.leaderboard) && store.workouts == old(store.workouts)
  {
    activityId', created' := activityId, created;
    ghost var mine := UserActivities(user, ds);
    assert front + mine[..0] == front;
    for j := 0 to |ds|
      invariant store.Valid()
      invariant store.teams == old(store.teams) && store.users == old(store.users)
      invariant store.leaderboard == old(store.leaderboard) && store.workouts == old(store.workouts)
      invariant store.activities == ById(front + mine[..j])
      invariant created' == |front| + j && activityId' == created' + 1
    {
      PrefixSnoc(front, mine, j);
      StoreSeedActivity(store, user, ds[j], j, activityId', front + mine[..j]);
      activityId' := activityId' + 1;
      created' := created' + 1;
    }
    assert mine[..|ds|] == mine;
  }

  /**
   * The outer loop: for each listed user in turn, that user's activities, numbered on from
   * the activities already stored.
   */
  method InsertActivitiesOf(store: Store, users: seq<nat>, draws: seq<seq<Draw>>) returns (created: nat, nextId: nat)
    requires store.Valid() && store.activities == map[]
    requires forall i :: 0 <= i < |users| ==> users[i] in store.users
    requires |draws| == |users| && forall i :: 0 <= i < |draws| ==> |draws[i]| <= 10
    modifies store
    ensures store.Valid()
    ensures store.activities == ById(SeedActivities(users, draws))
    ensures created == |SeedActivities(users, draws)| && nextId == created + 1
    ensures store.teams == old(store.teams) && store.users == old(store.users)
    ensures store.leaderboard == old(store.leaderboard) && store.workouts == old(store.workouts)
  {
    created := 0;
    nextId := 1;
    assert users[..0] == [] && draws[..0] == [];
    for i := 0 to |users|
      invariant store.Valid()
      invariant store.teams == old(store.teams) && store.users == old(store.users)
      invariant store.leaderboard == old(store.leaderboard) && store.workouts == old(store.workouts)
      invariant store.activities == ById(SeedActivities(users[..i], draws[..i]))
      invariant created == |SeedActivities(users[..i], draws[..i])| && nextId == created + 1
    {
      SeedActivitiesStep(users, draws, i);
      nextId, created :=
        InsertUserActivities(store, users[i], draws[i], nextId, created, SeedActivities(users[..i], draws[..i]));
    }
    assert users[..|users|] == users && draws[..|draws|] == draws;
  }

  /**
   * Stores five to ten activities per user, users in ascending id order, under the ids
   * 1, 2, 3, ... of one counter. Returns how many were created and the counter's final value.
   */
  method InsertActivities(store: Store, draws: seq<seq<Draw>>) returns (created: nat, nextId: nat)
    requires store.Valid() && store.activities == map[]
    requires |draws| == |store.users| && forall i :: 0 <= i < |draws| ==> |draws[i]| <= 10
    modifies store
    ensures store.Valid()
    ensures var seeded := SeedActivities(AscendingIds(old(store.users).Keys), draws);
      && store.activities == ById(seeded)
      && created == |seeded|
      && nextId == created + 1
    ensures store.teams == old(store.teams) && store.users == old(store.users)
    ensures store.leaderboard == old(store.leaderboard) && store.workouts == old(store.workouts)
  {
    var users := AscendingIds(store.users.Keys);
    created, nextId := InsertActivitiesOf(store, users, draws);
  }

  /** Sums the durations of one user's activities. */
  method TotalDuration(store: Store, user: nat) returns (total: int)
    ensures total == Score(store.activities, user)
  {
    var ids := AscendingIds(store.activities.Keys);
    total := 0;
    for k := 0 to |ids|
      invariant total == DurationSum(store.activities, ids[..k], user)
    {
      var a := store.activities[ids[k]];
      if a.user == user {
        total := total + a.duration;
      }
      assert ids[..k + 1][..k] == ids[..k];
    }
    assert ids[..|ids|] == ids;
  }

  /** One (user, total duration) pair per user, users in ascending id order. */
  method CollectStandings(store: Store) returns (entries: seq<Standing>)
    ensures entries == StandingsOf(AscendingIds(store.users.Keys), store.activities)
  {
    var users := AscendingIds(store.users.Keys);
    entries := [];
    for i := 0 to |users|
      invariant entries == StandingsOf(users[..i], store.activities)
    {
      var total := TotalDuration(store, users[i]);
      StandingsOfSnoc(users, i, store.activities);
      entries := entries + [Standing(users[i], total)];
    }
    assert users[..|users|] == users;
  }

  lemma StandingsOfSnoc(ids: seq<nat>, i: nat, acts: map<nat, Activity>)
    requires i < |ids|
    ensures StandingsOf(ids[..i + 1], acts) == StandingsOf(ids[..i], acts) + [Standing(ids[i], Score(acts, ids[i]))]
  {
    var a := StandingsOf(ids[..i + 1], acts);
    var b := StandingsOf(ids[..i], acts) + [Standing(ids[i], Score(acts, ids[i]))];
    assert |a| == |b|;
    forall k | 0 <= k < |a| ensures a[k] == b[k] {
      assert ids[..i + 1][k] == ids[k];
    }
  }

  /** The entry at position i of a ranked list can be stored under id i + 1. */
  lemma EntryInsertable(board: map<nat, LeaderboardEntry>, users: map<nat, User>, rows: seq<LeaderboardEntry>, i: nat)
    requires i < |rows| && rows[i].user in users && rows[i].rank == i + 1
    requires board == ById(rows[..i])
    ensures NewEntry(rows[i].user, Some(rows[i].score), Some(i + 1)) == rows[i]
    ensures EntryError(board, users, i + 1, rows[i]) == None
    ensures ById(rows[..i + 1]) == board[i + 1 := rows[i]]
  {
    assert rows[..i + 1] == rows[..i] + [rows[i]];
    ByIdSnoc(rows[..i], rows[i]);
  }

  /** Stores the entry at position i under id and rank i + 1. */
  method StoreRankedEntry(store: Store, rows: seq<LeaderboardEntry>, i: nat)
    requires store.Valid() && i < |rows| && rows[i].user in store.users && rows[i].rank == i + 1
    requires store.leaderboard == ById(rows[..i])
    modifies store
    ensures store.Valid()
    ensures store.leaderboard == ById(rows[..i + 1])
    ensures store.teams == old(store.teams) && store.users == old(store.users)
    ensures store.activities == old(store.activities) && store.workouts == old(store.workouts)
  {
    var rank := i + 1;
    EntryInsertable(store.leaderboard, store.users, rows, i);
    var r := store.CreateEntry(rank, rows[i].user, Some(rows[i].score), Some(rank));
  }

  /**
   * Recomputes the leaderboard: totals per user, a stable sort by descending total, then one
   * entry per position with id and rank both equal to the 1-based position. Returns the number
   * of entries.
   */
  method AggregateLeaderboard(store: Store) returns (count: nat)
    requires store.Valid() && store.leaderboard == map[]
    modifies store
    ensures store.Valid()
    ensures store.leaderboard == ById(LeaderboardOf(old(store.users), old(store.activities)))
    ensures count == |old(store.users)|
    ensures store.teams == old(store.teams) && store.users == old(store.users)
    ensures store.activities == old(store.activities) && store.workouts == old(store.workouts)
  {
    var entries := CollectStandings(store);
    entries := SortByScoreDesc(entries);
    var rows := Ranked(entries);
    assert rows == LeaderboardOf(store.users, store.activities);
    LeaderboardShape(store.users, store.activities);
    StoreRankedEntries(store, rows);
    count := |rows|;
  }

  /** Stores a ranked list of entries into an empty leaderboard, each under its position's id. */
  method StoreRankedEntries(store: Store, rows: seq<LeaderboardEntry>)
    requires store.Valid() && store.leaderboard == map[]
    requires forall i :: 0 <= i < |rows| ==> rows[i].user in store.users && rows[i].rank == i + 1
    modifies store
    ensures store.Valid()
    ensures store.leaderboard == ById(rows)
    ensures store.teams == old(store.teams) && store.users == old(store.users)
    ensures store.activities == old(store.activities) && store.workouts == old(store.workouts)
  {
    for i := 0 to |rows|
      invariant store.Valid()
      invariant store.teams == old(store.teams) && store.users == old(store.users)
      invariant store.activities == old(store.activities) && store.workouts == old(store.workouts)
      invariant store.leaderboard == ById(rows[..i])
    {
      StoreRankedEntry(store, rows, i);
    }
    assert rows[..|rows|] == rows;
  }

  lemma WorkoutAccepted(workouts: map<nat, Workout>, id: nat, w: Workout)
    requires id !in workouts && ValidWorkout(w)
    ensures WorkoutError(workouts, id, w) == None
  {
  }

  /** Stores the given workouts under ids 1, 2, ... in list order (`enumerate(..., start=1)`). */
  method InsertWorkouts(store: Store, workouts: seq<Workout>)
    requires store.Valid() && store.workouts == map[]
    requires forall i :: 0 <= i < |workouts| ==> ValidWorkout(workouts[i])
    modifies store
    ensures store.Valid()
    ensures store.workouts == ById(workouts)
    ensures store.teams == old(store.teams) && store.users == old(store.users)
    ensures store.activities == old(store.activities) && store.leaderboard == old(store.leaderboard)
  {
    for i := 0 to |workouts|
      invariant store.Valid()
      invariant store.teams == old(store.teams) && store.users == old(store.users)
      invariant store.activities == old(store.activities) && store.leaderboard == old(store.leaderboard)
      invariant store.workouts == ById(workouts[..i])
    {
      var w := workouts[i];
      WorkoutAccepted(store.workouts, i + 1, w);
      var r := store.CreateWorkout(i + 1, w.name, Some(w.description), Some(w.exercises), Some(w.difficulty));
      assert workouts[..i + 1] == workouts[..i] + [w];
      ByIdSnoc(workouts[..i], w);
    }
    assert workouts[..|workouts|] == workouts;
  }

  /** Records stored under 1..n are listed in id order as 1..n. */
  lemma AscendingIdsOfById<T>(rows: seq<T>)
    ensures AscendingIds(ById(rows).Keys) == IdRange(|rows|)
  {
    var r := IdRange(|rows|);
    assert forall x :: x in r <==> x in ById(rows).Keys by {
      forall x ensures x in r <==> x in ById(rows).Keys {
        if 1 <= x <= |rows| {
          assert r[x - 1] == x;
        }
      }
    }
    AscendingIdsUnique(ById(rows).Keys, r);
  }

  /** The seeded store, for clock reading `now` and the given draws. */
  ghost predicate IsSeeded(store: Store, now: int, draws: seq<seq<Draw>>)
    reads store
    requires |draws| == |SeedUsers|
  {
    && store.teams == ById(TeamRecords(now))
    && store.users == ById(UserRecords(now))
    && store.activities == ById(SeedActivities(IdRange(|SeedUsers|), draws))
    && store.leaderboard == ById(LeaderboardOf(store.users, store.activities))
    && store.workouts == ById(SeedWorkouts)
  }

  /**
   * The whole command: whatever the store held, it ends up holding exactly the catalogue, the
   * drawn activities and the leaderboard computed from them. Returns the number of activities.
   */
  method Handle(store: Store, now: int, draws: seq<seq<Draw>>) returns (activitiesCreated: nat)
    requires ValidDraws(draws, |SeedUsers|)
    modifies store
    ensures store.Valid()
    ensures IsSeeded(store, now, draws)
    ensures activitiesCreated == |SeedActivities(IdRange(|SeedUsers|), draws)|
  {
    ClearCollections(store);
    InsertTeams(store, now);
    InsertUsers(store, now);
    AscendingIdsOfById(UserRecords(now));
    var activityId;
    activitiesCreated, activityId := InsertActivities(store, draws);
    var entries := AggregateLeaderboard(store);
    SeedWorkoutsValid();
    InsertWorkouts(store, SeedWorkouts);
  }
}
