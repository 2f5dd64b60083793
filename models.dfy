/**
 * The five record kinds of the fitness tracker (teams, users, activities, leaderboard
 * entries, workouts), their field constraints, choices and defaults, and their string forms.
 *
 * Identifiers are not part of a record: the store keys every collection by id. A reference to
 * another record is that record's id. Timestamps (`created_at`, an activity's `date`) are
 * integers supplied by the caller. Durations and scores are whole minutes.
 */
module Models {
  import opened Wrappers
  import opened Numerals

  // Maximum lengths of the character fields.
  const TeamNameMax := 200
  const TeamDescriptionMax := 500
  const UserNameMax := 200
  const EmailMax := 254          // the default max_length of an EmailField
  const AvatarMax := 10
  const FitnessLevelMax := 50
  const NotesMax := 500
  const WorkoutNameMax := 200
  const WorkoutDescriptionMax := 1000

  /** The stored values allowed for an activity's type. */
  const ActivityTypes: seq<string> :=
    ["running", "cycling", "swimming", "strength_training", "yoga", "walking", "other"]

  /** The stored values allowed for a workout's difficulty. */
  const Difficulties: seq<string> := ["beginner", "intermediate", "advanced", "god-tier"]

  /**
   * Whether `s` is one of `choices`, checked one choice at a time. It agrees with `s in choices`
   * (OneOfIsIn); written recursively so that the verifier opens a choice list only on demand.
   */
  predicate OneOf(s: string, choices: seq<string>)
    decreases |choices|
  {
    |choices| > 0 && (choices[0] == s || OneOf(s, choices[1..]))
  }

  lemma {:induction false} OneOfIsIn(s: string, choices: seq<string>)
    ensures OneOf(s, choices) <==> s in choices
    decreases |choices|
  {
    if |choices| > 0 {
      OneOfIsIn(s, choices[1..]);
      assert choices == [choices[0]] + choices[1..];
    }
  }

  const DefaultFitnessLevel := "beginner"
  const DefaultDifficulty := "beginner"

  datatype Team = Team(name: string, description: string, createdAt: int)

  datatype User = User(
    name: string,
    email: string,
    team: Option<nat>,
    avatar: string,
    fitnessLevel: string,
    createdAt: int)

  datatype Activity = Activity(
    user: nat,
    activityType: string,
    duration: int,
    date: int,
    notes: string)

  datatype LeaderboardEntry = LeaderboardEntry(user: nat, score: int, rank: int)

  /** One exercise of a workout: a name and whichever of reps, sets, duration and distance it has. */
  datatype Exercise = Exercise(
    name: string,
    reps: Option<int>,
    sets: Option<int>,
    duration: Option<string>,
    distance: Option<string>)

  datatype Workout = Workout(
    name: string,
    description: string,
    exercises: seq<Exercise>,
    difficulty: string)

  // Field validity. A field without `blank=True` must be non-empty.

  predicate ValidTeam(t: Team) {
    0 < |t.name| <= TeamNameMax && |t.description| <= TeamDescriptionMax
  }

  /** `fitness_level` has no choices: any text up to 50 characters is allowed. */
  predicate ValidUser(u: User) {
    && 0 < |u.name| <= UserNameMax
    && 0 < |u.email| <= EmailMax
    && |u.avatar| <= AvatarMax
    && |u.fitnessLevel| <= FitnessLevelMax
  }

  predicate ValidActivity(a: Activity) {
    OneOf(a.activityType, ActivityTypes) && |a.notes| <= NotesMax
  }

  predicate ValidWorkout(w: Workout) {
    && 0 < |w.name| <= WorkoutNameMax
    && |w.description| <= WorkoutDescriptionMax
    && OneOf(w.difficulty, Difficulties)
  }

  // Building records from the fields a caller gives; `None` is an omitted field.

  function NewTeam(name: string, description: Option<string>, now: int): Team {
    Team(name, description.GetOr(""), now)
  }

  function NewUser(name: string, email: string, team: Option<nat>, avatar: Option<string>,
                   fitnessLevel: Option<string>, now: int): User {
    User(name, email, team, avatar.GetOr(""), fitnessLevel.GetOr(DefaultFitnessLevel), now)
  }

  function NewActivity(user: nat, activityType: string, duration: int, date: int,
                       notes: Option<string>): Activity {
    Activity(user, activityType, duration, date, notes.GetOr(""))
  }

  function NewEntry(user: nat, score: Option<int>, rank: Option<int>): LeaderboardEntry {
    LeaderboardEntry(user, score.GetOr(0), rank.GetOr(0))
  }

  function NewWorkout(name: string, description: Option<string>, exercises: Option<seq<Exercise>>,
                      difficulty: Option<string>): Workout {
    Workout(name, description.GetOr(""), exercises.GetOr([]), difficulty.GetOr(DefaultDifficulty))
  }

  /** Omitted fields take the declared defaults; given fields are kept as they are. */
  lemma Defaults(name: string, email: string, user: nat, activityType: string, duration: int, now: int)
    ensures NewTeam(name, None, now).description == ""
    ensures var u := NewUser(name, email, None, None, None, now);
      u.team == None && u.avatar == "" && u.fitnessLevel == "beginner"
    ensures NewActivity(user, activityType, duration, now, None).notes == ""
    ensures var e := NewEntry(user, None, None); e.score == 0 && e.rank == 0
    ensures var w := NewWorkout(name, None, None, None);
      w.description == "" && w.exercises == [] && w.difficulty == "beginner" && ValidWorkout(w) == (0 < |name| <= 200)
  {
  }

  // String forms.

  function TeamStr(t: Team): string { t.name }

  function UserStr(u: User): string { u.name }

  function WorkoutStr(w: Workout): string { w.name }

  /** A team, user or workout created with a name shows as that name, whatever its other fields. */
  lemma StrIsName(name: string, description: Option<string>, email: string, team: Option<nat>,
                  avatar: Option<string>, fitnessLevel: Option<string>, exercises: Option<seq<Exercise>>,
                  difficulty: Option<string>, now: int)
    ensures TeamStr(NewTeam(name, description, now)) == name
    ensures UserStr(NewUser(name, email, team, avatar, fitnessLevel, now)) == name
    ensures WorkoutStr(NewWorkout(name, description, exercises, difficulty)) == name
  {
  }

  /** Python's `str()` of a float that holds a whole number: the digits followed by ".0". */
  function FloatStr(n: int): string { IntToString(n) + ".0" }

  /** "<user name> - <type> (<duration> min)"; `owner` is the activity's user. */
  function ActivityStr(a: Activity, owner: User): (s: string)
    ensures owner.name + " - " <= s && s[|s| - 1] == ')'
  {
    owner.name + " - " + a.activityType + " (" + FloatStr(a.duration) + " min)"
  }

  /** "<user name> - Rank <rank> (Score: <score>)"; `owner` is the entry's user. */
  function EntryStr(e: LeaderboardEntry, owner: User): (s: string)
    ensures owner.name + " - Rank " <= s && s[|s| - 1] == ')'
  {
    owner.name + " - " + ("Rank " + IntToString(e.rank)) + " (Score: " + FloatStr(e.score) + ")"
  }

  /** `sub` occurs in `s` (Python's `sub in s`). */
  ghost predicate IsInfix(sub: string, s: string) {
    exists i :: 0 <= i <= |s| && sub <= s[i..]
  }

  /** The first and the third of six concatenated parts occur in the whole. */
  lemma PartsOccur(p0: string, p1: string, p2: string, p3: string, p4: string, p5: string)
    ensures IsInfix(p0, p0 + p1 + p2 + p3 + p4 + p5)
    ensures IsInfix(p2, p0 + p1 + p2 + p3 + p4 + p5)
  {
    var s := p0 + p1 + p2 + p3 + p4 + p5;
    assert s == p0 + (p1 + p2 + p3 + p4 + p5);
    assert p0 <= s[0..];
    assert s == (p0 + p1) + p2 + (p3 + p4 + p5);
    assert p2 <= s[|p0 + p1|..];
  }

  /** An activity's text names its user and its type. */
  lemma ActivityStrMentions(a: Activity, u: User)
    ensures IsInfix(u.name, ActivityStr(a, u)) && IsInfix(a.activityType, ActivityStr(a, u))
  {
    PartsOccur(u.name, " - ", a.activityType, " (", FloatStr(a.duration), " min)");
  }

  /** An entry's text names its user and says "Rank <rank>". */
  lemma EntryStrMentions(e: LeaderboardEntry, u: User)
    ensures IsInfix(u.name, EntryStr(e, u))
    ensures IsInfix("Rank " + IntToString(e.rank), EntryStr(e, u))
  {
    var rank := "Rank " + IntToString(e.rank);
    PartsOccur(u.name, " - ", rank, " (Score: ", FloatStr(e.score), ")");
    assert EntryStr(e, u) == u.name + " - " + rank + " (Score: " + FloatStr(e.score) + ")";
  }
}
