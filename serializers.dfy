/**
 * The read views of the REST API: each record rendered as a JSON object with exactly the fields
 * its serializer lists, in that order. Every view's `id` is the decimal string of the record's
 * primary key; users and leaderboard entries carry the name of the referenced team, activities
 * and leaderboard entries the name of the referenced user. Rendering is a function of the stored
 * records, so it changes none of them.
 */
module Serializers {
  import opened Wrappers
  import opened Numerals
  import opened Models
  import opened EntityStore

  /** JSON values (numbers are whole: durations and scores are whole minutes here). */
  datatype Json =
    | JNull
    | JInt(n: int)
    | JString(s: string)
    | JArray(items: seq<Json>)
    | JObject(members: seq<Member>)

  datatype Member = Member(key: string, value: Json)

  /** A rendered record: its members in serializer field order. */
  type View = seq<Member>

  function Keys(v: View): (ks: seq<string>)
    ensures |ks| == |v| && forall i :: 0 <= i < |v| ==> ks[i] == v[i].key
  {
    if v == [] then [] else [v[0].key] + Keys(v[1..])
  }

  /** The value of the first member named `k`, as reading a key of the JSON object gives it. */
  function Get(v: View, k: string): Option<Json> {
    if v == [] then None else if v[0].key == k then Some(v[0].value) else Get(v[1..], k)
  }

  /** A key reads as absent exactly when no member has it. */
  lemma {:induction false} GetMissing(v: View, k: string)
    ensures Get(v, k).None? <==> k !in Keys(v)
  {
    if v != [] {
      GetMissing(v[1..], k);
      assert Keys(v) == [v[0].key] + Keys(v[1..]);
    }
  }

  /** Reading a key gives the member at its first position. */
  lemma {:induction false} GetAt(v: View, i: nat)
    requires i < |v| && forall j :: 0 <= j < i ==> v[j].key != v[i].key
    ensures Get(v, v[i].key) == Some(v[i].value)
  {
    if i > 0 {
      GetAt(v[1..], i - 1);
    }
  }

  // The `Meta.fields` of each serializer.
  const TeamFields: seq<string> := ["id", "name", "description", "created_at"]
  const UserFields: seq<string> :=
    ["id", "name", "email", "team", "team_name", "avatar", "fitness_level", "created_at"]
  const ActivityFields: seq<string> := ["id", "user", "user_name", "activity_type", "duration", "date", "notes"]
  const EntryFields: seq<string> := ["id", "user", "user_name", "team_name", "score", "rank"]
  const WorkoutFields: seq<string> := ["id", "name", "description", "exercises", "difficulty"]

  // The computed fields.

  /** `get_id`: the primary key as a decimal string. */
  function IdOf(pk: nat): (s: string)
    ensures 1 <= |s| && AllDigits(s)
  {
    NatToString(pk)
  }

  /** Distinct records get distinct ids, and the id reads back as the primary key. */
  lemma IdOfInjective(a: nat, b: nat)
    ensures IdOf(a) == IdOf(b) <==> a == b
    ensures DigitsValue(IdOf(a)) == a
  {
    NatToStringInjective(a, b);
    DigitsValueOfNatToString(a);
  }

  /** `get_team_name` of a user: the name of the user's team, or `None` without one. */
  function TeamNameOf(u: User, teams: map<nat, Team>): (r: Option<string>)
    requires TeamRefOk(u, teams)
    ensures r.None? <==> u.team.None?
    ensures r.Some? ==> r.value == teams[u.team.value].name
  {
    if u.team.Some? then Some(teams[u.team.value].name) else None
  }

  function OptionalString(o: Option<string>): Json {
    if o.Some? then JString(o.value) else JNull
  }

  function OptionalId(o: Option<nat>): Json {
    if o.Some? then JInt(o.value) else JNull
  }

  // The views.

  function TeamView(pk: nat, t: Team): (v: View)
    ensures |v| == |TeamFields| && Get(v, "id") == Some(JString(IdOf(pk)))
  {
    [Member("id", JString(IdOf(pk))), Member("name", JString(t.name)),
     Member("description", JString(t.description)), Member("created_at", JInt(t.createdAt))]
  }

  function UserView(pk: nat, u: User, teams: map<nat, Team>): (v: View)
    requires TeamRefOk(u, teams)
    ensures |v| == |UserFields| && Get(v, "id") == Some(JString(IdOf(pk)))
  {
    [Member("id", JString(IdOf(pk))), Member("name", JString(u.name)), Member("email", JString(u.email)),
     Member("team", OptionalId(u.team)), Member("team_name", OptionalString(TeamNameOf(u, teams))),
     Member("avatar", JString(u.avatar)), Member("fitness_level", JString(u.fitnessLevel)),
     Member("created_at", JInt(u.createdAt))]
  }

  /** An activity's user is a required reference, so `user_name` is always that user's name. */
  function ActivityView(pk: nat, a: Activity, users: map<nat, User>): (v: View)
    requires a.user in users
    ensures |v| == |ActivityFields| && Get(v, "id") == Some(JString(IdOf(pk)))
  {
    [Member("id", JString(IdOf(pk))), Member("user", JInt(a.user)),
     Member("user_name", JString(users[a.user].name)), Member("activity_type", JString(a.activityType)),
     Member("duration", JInt(a.duration)), Member("date", JInt(a.date)), Member("notes", JString(a.notes))]
  }

  function EntryView(pk: nat, e: LeaderboardEntry, users: map<nat, User>, teams: map<nat, Team>): (v: View)
    requires e.user in users && TeamRefOk(users[e.user], teams)
    ensures |v| == |EntryFields| && Get(v, "id") == Some(JString(IdOf(pk)))
  {
    [Member("id", JString(IdOf(pk))), Member("user", JInt(e.user)),
     Member("user_name", JString(users[e.user].name)),
     Member("team_name", OptionalString(TeamNameOf(users[e.user], teams))),
     Member("score", JInt(e.score)), Member("rank", JInt(e.rank))]
  }

  /** An exercise as a JSON object: its name, then whichever of the optional fields it has. */
  function ExerciseJson(x: Exercise): Json {
    JObject([Member("name", JString(x.name))]
      + (if x.reps.Some? then [Member("reps", JInt(x.reps.value))] else [])
      + (if x.sets.Some? then [Member("sets", JInt(x.sets.value))] else [])
      + (if x.duration.Some? then [Member("duration", JString(x.duration.value))] else [])
      + (if x.distance.Some? then [Member("distance", JString(x.distance.value))] else []))
  }

  function WorkoutView(pk: nat, w: Workout): (v: View)
    ensures |v| == |WorkoutFields| && Get(v, "id") == Some(JString(IdOf(pk)))
  {
    [Member("id", JString(IdOf(pk))), Member("name", JString(w.name)),
     Member("description", JString(w.description)),
     Member("exercises", JArray(seq(|w.exercises|, i requires 0 <= i < |w.exercises| => ExerciseJson(w.exercises[i])))),
     Member("difficulty", JString(w.difficulty))]
  }

  // Properties of the views.

  // Each view has exactly its serializer's fields, in the order listed there.

  lemma TeamViewKeys(pk: nat, t: Team)
    ensures Keys(TeamView(pk, t)) == TeamFields
  {
  }

  lemma UserViewKeys(pk: nat, u: User, teams: map<nat, Team>)
    requires TeamRefOk(u, teams)
    ensures Keys(UserView(pk, u, teams)) == UserFields
  {
  }

  lemma ActivityViewKeys(pk: nat, a: Activity, users: map<nat, User>)
    requires a.user in users
    ensures Keys(ActivityView(pk, a, users)) == ActivityFields
  {
  }

  lemma EntryViewKeys(pk: nat, e: LeaderboardEntry, users: map<nat, User>, teams: map<nat, Team>)
    requires e.user in users && TeamRefOk(users[e.user], teams)
    ensures Keys(EntryView(pk, e, users, teams)) == EntryFields
  {
  }

  lemma WorkoutViewKeys(pk: nat, w: Workout)
    ensures Keys(WorkoutView(pk, w)) == WorkoutFields
  {
  }

  /** Two users' views have the same `id` exactly when they render the same primary key. */
  lemma UserViewIds(a: nat, u: User, b: nat, w: User, teams: map<nat, Team>)
    requires TeamRefOk(u, teams) && TeamRefOk(w, teams)
    ensures Get(UserView(a, u, teams), "id") == Get(UserView(b, w, teams), "id") <==> a == b
  {
    IdOfInjective(a, b);
  }

  /**
   * A leaderboard entry shows the same user name and team name as the view of its user, and an
   * activity the same user name.
   */
  lemma ViewsAgreeOnNames(e: LeaderboardEntry, a: Activity, pk: nat, users: map<nat, User>, teams: map<nat, Team>)
    requires e.user in users && TeamRefOk(users[e.user], teams) && a.user == e.user
    ensures var uv := UserView(e.user, users[e.user], teams);
      && Get(EntryView(pk, e, users, teams), "user_name") == Get(uv, "name")
      && Get(EntryView(pk, e, users, teams), "team_name") == Get(uv, "team_name")
      && Get(ActivityView(pk, a, users), "user_name") == Get(uv, "name")
  {
    var uv := UserView(e.user, users[e.user], teams);
    var ev := EntryView(pk, e, users, teams);
    var av := ActivityView(pk, a, users);
    GetAt(uv, 1);
    GetAt(uv, 4);
    GetAt(ev, 2);
    GetAt(ev, 3);
    GetAt(av, 2);
  }

  /** `team_name` is null exactly for users without a team, and the team's name otherwise. */
  lemma TeamNameShown(pk: nat, u: User, teams: map<nat, Team>)
    requires TeamRefOk(u, teams)
    ensures Get(UserView(pk, u, teams), "team_name") == Some(JNull) <==> u.team.None?
    ensures u.team.Some? ==> Get(UserView(pk, u, teams), "team_name") == Some(JString(teams[u.team.value].name))
  {
    GetAt(UserView(pk, u, teams), 4);
  }

  /**
   * After a team is deleted (its members' team cleared), the views of its former members show
   * null for team and team_name, and every other user's view is as before.
   */
  lemma ViewsAfterTeamDeletion(users: map<nat, User>, teams: map<nat, Team>, t: nat, pk: nat)
    requires pk in users && forall u :: u in users ==> TeamRefOk(users[u], teams)
    ensures var after := DetachTeam(users, t);
      && TeamRefOk(after[pk], teams - {t})
      && (users[pk].team == Some(t) ==>
            Get(UserView(pk, after[pk], teams - {t}), "team") == Some(JNull)
            && Get(UserView(pk, after[pk], teams - {t}), "team_name") == Some(JNull))
      && (users[pk].team != Some(t) ==> UserView(pk, after[pk], teams - {t}) == UserView(pk, users[pk], teams))
  {
    var after := DetachTeam(users, t);
    if users[pk].team == Some(t) {
      assert after[pk].team == None;
      var v := UserView(pk, after[pk], teams - {t});
      GetAt(v, 3);
      GetAt(v, 4);
    } else {
      assert after[pk] == users[pk];
    }
  }
}
