# OctoFit Tracker: a verified model of the data core

OctoFit Tracker is a small fitness tracker. It has a Django REST backend with five kinds of
record (teams, users, activities, leaderboard entries, workouts) and a React client. This
project models the backend's data core in Dafny and proves properties of it:

- the record kinds, their field rules, choices and defaults;
- the deletion rules: a team's deletion clears its members' team, and a user's deletion removes
  their activities and leaderboard entries;
- the uniqueness of email addresses and the listing of the leaderboard by rank;
- the `populate_db` management command, which seeds the database and computes the leaderboard
  from activity totals;
- the JSON views that the serializers render;
- the data shaping of the client's user edit form.

Modules (one file each):

| file | module | models |
|---|---|---|
| `wrappers.dfy` | `Wrappers` | `Option`, `Result` |
| `numerals.dfy` | `Numerals` | decimal rendering of integers (Python `str`, JavaScript `String`) and JavaScript `parseInt(s, 10)` |
| `models.dfy` | `Models` | `models.py`: records, field limits, choices, defaults, `__str__` |
| `store.dfy` | `EntityStore` | the database as a `Store` class with one map per collection; it validates on create and applies SET_NULL and CASCADE on delete |
| `sorting.dfy` | `Sorting` | a stable sort by an integer key (Python's `list.sort`) |
| `ranking.dfy` | `Ranking` | the leaderboard as a function of users and activities, characterized by its properties |
| `populatedb.dfy` | `PopulateDb` | the `populate_db` command as methods on the store, with loop invariants |
| `serializers.dfy` | `Serializers` | the five serializers' JSON views and their computed fields |
| `users_form.dfy` | `UserEditForm` | `openEdit`, `handleChange` and `handleSave` of the users page |

How the model is set up:

- **Ids.** Records do not hold their id. The store keys each collection by id, and a reference
  is the referenced record's id.
- **Random values and the clock.** These are parameters. `Draw` carries one seeded activity's
  values:
  - `typeIndex` is the position `random.choice` picked;
  - `duration` is drawn from 15 to 120 and `daysAgo` from 0 to 30;
  - `clock` is the reading of `timezone.now()`.

  The number of activities per user is the length of that user's list of draws. The creation
  timestamp `now` is also a parameter.
- **Leaderboard.** A user's score is the sum of their activities' durations, taken over the
  activity ids in ascending order. The users are ordered by id and then stably sorted by
  descending score; the entry at position i gets rank i + 1 and is stored under id i + 1. So
  scores never increase down the list, and equal scores stay in ascending user id order.
  `Ranking.LeaderboardCharacterized` proves that these properties determine the list exactly.

## Model

| member | source | states |
|---|---|---|
| `Models.OneOfIsIn` | octofit-tracker/backend/octofit_tracker/models.py:32-42 | The choice check used for activity types and difficulties holds exactly when the value is one of the listed choices. |
| `Models.Defaults` | octofit-tracker/backend/octofit_tracker/models.py:6-77 | Omitted fields take the declared defaults: description, notes and avatar "", team none, fitness level and difficulty "beginner", score and rank 0, exercises the empty list; a workout with defaults is valid exactly when its name has 1 to 200 characters. |
| `Models.StrIsName` | octofit-tracker/backend/octofit_tracker/models.py:12-13 | A created team, user or workout shows as its name, whatever its other fields (also lines 27-28 and 82-83). |
| `Models.ActivityStr` | octofit-tracker/backend/octofit_tracker/models.py:50-51 | An activity shows as its user's name and " - ", and ends with ")"; `ActivityStrMentions` shows that its type occurs in it. |
| `Models.EntryStr` | octofit-tracker/backend/octofit_tracker/models.py:63-64 | An entry shows as its user's name followed by " - Rank ", and ends with ")"; `EntryStrMentions` shows that its rank follows. |
| `Models.ActivityStrMentions` | octofit-tracker/backend/octofit_tracker/models.py:50-51 | An activity's text contains its user's name and its type. |
| `Models.EntryStrMentions` | octofit-tracker/backend/octofit_tracker/models.py:63-64 | An entry's text contains its user's name and "Rank " followed by its rank. |
| `EntityStore.TeamError` | octofit-tracker/backend/octofit_tracker/models.py:4-7 | A team is accepted exactly when its id is free, its name has 1 to 200 characters and its description at most 500; with a free id, any other rejection is a validation error. |
| `EntityStore.UserError` | octofit-tracker/backend/octofit_tracker/models.py:16-21 | A user is accepted exactly when the id is free, the email is not taken, the field limits hold and the team exists or is absent; a taken email is a duplicate-key error on "email". |
| `EntityStore.ActivityError` | octofit-tracker/backend/octofit_tracker/models.py:31-45 | An activity is accepted exactly when the id is free, the type is one of the seven choices, the notes have at most 500 characters and the user exists; a type outside the choices is a validation error on "activity_type". |
| `EntityStore.EntryError` | octofit-tracker/backend/octofit_tracker/models.py:54-57 | An entry is accepted exactly when the id is free and its user exists. |
| `EntityStore.WorkoutError` | octofit-tracker/backend/octofit_tracker/models.py:67-77 | A workout is accepted exactly when the id is free, the name has 1 to 200 characters, the description at most 1000 and the difficulty is one of the four choices. |
| `EntityStore.DetachTeam` | octofit-tracker/backend/octofit_tracker/models.py:19 | SET_NULL: the same users remain; none refers to the deleted team; a user's team changes exactly when it was that team; nothing but the team field changes. |
| `EntityStore.DetachKeepsUsersValid` | octofit-tracker/backend/octofit_tracker/models.py:18-19 | After SET_NULL every user is still valid, refers only to remaining teams, and emails stay unique. |
| `EntityStore.ActivitiesNotOf` | octofit-tracker/backend/octofit_tracker/models.py:41 | CASCADE: exactly the activities of other users remain, unchanged. |
| `EntityStore.EntriesNotOf` | octofit-tracker/backend/octofit_tracker/models.py:55 | CASCADE: exactly the leaderboard entries of other users remain, unchanged. |
| `EntityStore.AscendingIds` | octofit-tracker/backend/octofit_tracker/management/commands/populate_db.py:67 | The ids of a set, each exactly once, in strictly increasing order (`order_by('id')`). |
| `EntityStore.ListByRank` | octofit-tracker/backend/octofit_tracker/models.py:61 | Listing the leaderboard yields every stored (id, entry) pair once, in ascending rank. |
| `EntityStore.Store.constructor` | octofit-tracker/backend/octofit_tracker/models.py:4-83 | A new store holds five empty collections, and its invariant holds. |
| `EntityStore.Store.DeleteMany` | octofit-tracker/backend/octofit_tracker/management/commands/populate_db.py:18-19 | `delete_many({})` on one collection empties it and changes nothing else (no cascade). |
| `EntityStore.Store.CreateTeam` | octofit-tracker/backend/octofit_tracker/models.py:4-7 | Stores the team with defaults applied when `TeamError` finds nothing, else fails with that error and leaves the store unchanged; other collections are untouched and the invariant is kept. |
| `EntityStore.Store.CreateUser` | octofit-tracker/backend/octofit_tracker/models.py:16-22 | Like `CreateTeam` with `UserError`; a taken email always fails with the store unchanged, so emails stay unique. |
| `EntityStore.Store.CreateActivity` | octofit-tracker/backend/octofit_tracker/models.py:31-45 | Like `CreateTeam` with `ActivityError`. |
| `EntityStore.Store.CreateEntry` | octofit-tracker/backend/octofit_tracker/models.py:54-57 | Like `CreateTeam` with `EntryError`; omitted score and rank are 0. |
| `EntityStore.Store.CreateWorkout` | octofit-tracker/backend/octofit_tracker/models.py:67-77 | Like `CreateTeam` with `WorkoutError`. |
| `EntityStore.Store.DeleteTeam` | octofit-tracker/backend/octofit_tracker/models.py:19 | A missing team is not found and nothing changes; otherwise the team is removed and its members lose their team (SET_NULL); activities, entries and workouts are untouched. |
| `EntityStore.CascadeKeepsRefs` | octofit-tracker/backend/octofit_tracker/models.py:41-55 | After a user's activities and entries are removed, every remaining activity and entry still refers to a remaining user, and emails stay unique. |
| `EntityStore.Store.DeleteUser` | octofit-tracker/backend/octofit_tracker/models.py:41 | A missing user is not found and nothing changes; otherwise the user is removed together with their activities and leaderboard entries (CASCADE, also line 55). |
| `EntityStore.Store.ListLeaderboard` | octofit-tracker/backend/octofit_tracker/models.py:61 | Returns the leaderboard as `ListByRank` lists it, changing nothing. |
| `Sorting.SortFacts` | octofit-tracker/backend/octofit_tracker/management/commands/populate_db.py:102 | The sort orders by key, is a permutation of its input, and keeps the input order of elements with equal keys (stability). |
| `Sorting.StableSortUnique` | octofit-tracker/backend/octofit_tracker/management/commands/populate_db.py:102 | Two key-sorted lists that list each key's elements in the same order are equal. |
| `Ranking.Score` | octofit-tracker/backend/octofit_tracker/management/commands/populate_db.py:96-98 | A user's score is the sum of the durations of the user's activities; it has no contract of its own: `ScoreAnyOrder`, `ScoreWithoutActivities` and `ScoreOfRows` state what it is. |
| `Ranking.ScoreAnyOrder` | octofit-tracker/backend/octofit_tracker/management/commands/populate_db.py:96-98 | A user's total is the same whichever order the activities are read in. |
| `Ranking.ScoreWithoutActivities` | octofit-tracker/backend/octofit_tracker/management/commands/populate_db.py:96-98 | A user with no activities scores 0. |
| `Ranking.BoardEntriesScored` | octofit-tracker/backend/octofit_tracker/management/commands/populate_db.py:94-104 | Every leaderboard entry is an existing user with that user's total as score. |
| `Ranking.BoardCoversUsers` | octofit-tracker/backend/octofit_tracker/management/commands/populate_db.py:94-104 | Every user has an entry, and there are exactly as many entries as users. |
| `Ranking.BoardOrdered` | octofit-tracker/backend/octofit_tracker/management/commands/populate_db.py:102 | Scores never increase down the leaderboard, and equal scores are in ascending user id order. |
| `Ranking.LeaderboardOf` | octofit-tracker/backend/octofit_tracker/management/commands/populate_db.py:94-104 | The standings of the users, read in id order, sorted stably by descending score and numbered from 1; it has no contract of its own: `LeaderboardFacts` and `LeaderboardCharacterized` state what it is. |
| `Ranking.LeaderboardFacts` | octofit-tracker/backend/octofit_tracker/management/commands/populate_db.py:94-104 | The computed leaderboard covers the users exactly, scores them by total duration, ranks position i as i + 1 and is ordered as above. |
| `Ranking.UsersDistinct` | octofit-tracker/backend/octofit_tracker/management/commands/populate_db.py:95-99 | No user appears twice on a leaderboard. |
| `Ranking.LeaderboardPermutation` | octofit-tracker/backend/octofit_tracker/management/commands/populate_db.py:94-102 | The leaderboard's (user, score) pairs are a permutation of the per-user totals in id order. |
| `Ranking.LeaderboardUnique` | octofit-tracker/backend/octofit_tracker/management/commands/populate_db.py:94-104 | Two lists with the leaderboard properties for the same data are equal. |
| `Ranking.LeaderboardCharacterized` | octofit-tracker/backend/octofit_tracker/management/commands/populate_db.py:94-104 | A list has the leaderboard properties exactly when it is the computed leaderboard, so recomputing gives the same result. |
| `Ranking.StoredIdIsRank` | octofit-tracker/backend/octofit_tracker/management/commands/populate_db.py:103-104 | Each stored entry's id equals its rank. |
| `Ranking.TwoUserBoard` | octofit-tracker/backend/octofit_tracker/management/commands/populate_db.py:94-104 | With two users, the one with the higher total is rank 1 and the other rank 2, each scored by their own total. |
| `Ranking.IdleUserListed` | octofit-tracker/backend/octofit_tracker/management/commands/populate_db.py:94-104 | A user without activities is listed with score 0 at a rank that matches their position, and nobody after them has a positive score. |
| `Numerals.DigitsValueOfNatToString` | octofit-tracker/backend/octofit_tracker/serializers.py:26-27 | Reading the decimal rendering of a number back gives the number. |
| `Numerals.NatToStringInjective` | octofit-tracker/backend/octofit_tracker/serializers.py:26-27 | Distinct numbers render differently. |
| `Numerals.ParseIntOfIntToString` | octofit-tracker/frontend/src/components/Users.js:87 | `parseInt(String(n), 10)` is `n` for every integer of the model, whose numbers are exact integers. |
| `Numerals.ParseInt` | octofit-tracker/frontend/src/components/Users.js:87 | `parseInt` gives NaN exactly when, after leading white space and a sign, no digit follows. |
| `Serializers.IdOfInjective` | octofit-tracker/backend/octofit_tracker/serializers.py:26-27 | `get_id` renders distinct primary keys as distinct strings of digits, which read back as the key (also lines 38-39, 55-56, 71-72, 90-91). |
| `Serializers.TeamNameOf` | octofit-tracker/backend/octofit_tracker/serializers.py:41-44 | `get_team_name` is absent exactly when the user has no team, and is the team's name otherwise. |
| `Serializers.TeamView` | octofit-tracker/backend/octofit_tracker/serializers.py:19-27 | A team's view has one member per field of `TeamSerializer`, and its "id" is `get_id`, the primary key's decimal string. |
| `Serializers.UserView` | octofit-tracker/backend/octofit_tracker/serializers.py:30-44 | A user's view has one member per field of `UserSerializer`, and its "id" is the primary key's decimal string. |
| `Serializers.ActivityView` | octofit-tracker/backend/octofit_tracker/serializers.py:47-59 | An activity's view has one member per field of `ActivitySerializer`, and its "id" is the primary key's decimal string. |
| `Serializers.EntryView` | octofit-tracker/backend/octofit_tracker/serializers.py:62-80 | A leaderboard entry's view has one member per field of `LeaderboardSerializer`, and its "id" is the primary key's decimal string. |
| `Serializers.WorkoutView` | octofit-tracker/backend/octofit_tracker/serializers.py:83-91 | A workout's view has one member per field of `WorkoutSerializer`, and its "id" is the primary key's decimal string. |
| `Serializers.TeamViewKeys` | octofit-tracker/backend/octofit_tracker/serializers.py:24 | A team's view has exactly the listed fields, in order. |
| `Serializers.UserViewKeys` | octofit-tracker/backend/octofit_tracker/serializers.py:36 | A user's view has exactly the listed fields, in order. |
| `Serializers.ActivityViewKeys` | octofit-tracker/backend/octofit_tracker/serializers.py:53 | An activity's view has exactly the listed fields, in order. |
| `Serializers.EntryViewKeys` | octofit-tracker/backend/octofit_tracker/serializers.py:69 | A leaderboard entry's view has exactly the listed fields, in order. |
| `Serializers.WorkoutViewKeys` | octofit-tracker/backend/octofit_tracker/serializers.py:88 | A workout's view has exactly the listed fields, in order. |
| `Serializers.UserViewIds` | octofit-tracker/backend/octofit_tracker/serializers.py:38-39 | Two user views have the same `id` exactly when they render the same primary key. |
| `Serializers.ViewsAgreeOnNames` | octofit-tracker/backend/octofit_tracker/serializers.py:74-80 | An entry's `user_name` and `team_name`, and an activity's `user_name` (lines 58-59), equal those in the view of their user. |
| `Serializers.TeamNameShown` | octofit-tracker/backend/octofit_tracker/serializers.py:41-44 | A user's view shows `team_name` null exactly when the user has no team, and the team's name otherwise. |
| `Serializers.ViewsAfterTeamDeletion` | octofit-tracker/backend/octofit_tracker/models.py:19 | After a team is deleted, its former members' views show null `team` and `team_name`, and other users' views are as before. |
| `UserEditForm.OpenEdit` | octofit-tracker/frontend/src/components/Users.js:55-63 | The form opened for a user has exactly the five fields name, email, fitness_level, avatar and team. |
| `UserEditForm.OpenEditFields` | octofit-tracker/frontend/src/components/Users.js:55-63 | The form has the five fields; name, email and avatar are copied when truthy and "" otherwise; the fitness level is copied when truthy and "beginner" otherwise; the team is "" when undefined or null, else its string form. |
| `UserEditForm.OpenEditKeepsUnlistedLevel` | octofit-tracker/frontend/src/components/Users.js:5-60 | A fitness level the form does not offer ("god-tier") is kept as it is. |
| `UserEditForm.HandleChange` | octofit-tracker/frontend/src/components/Users.js:72-75 | The named field holds the typed value, it is added if it was missing, and every other field keeps its value. |
| `UserEditForm.HandleChangeFrame` | octofit-tracker/frontend/src/components/Users.js:72-75 | A change event sets the named field and leaves every other field as it was. |
| `UserEditForm.TeamValueOfNumber` | octofit-tracker/frontend/src/components/Users.js:87 | A team field holding an integer's decimal string becomes that integer. |
| `UserEditForm.PayloadFields` | octofit-tracker/frontend/src/components/Users.js:82-88 | The payload has exactly the five fields; four are copied from the form and the team is the given value. |
| `UserEditForm.HandleSave` | octofit-tracker/frontend/src/components/Users.js:77-88 | The payload has exactly the five fields name, email, fitness_level, avatar and team. |
| `UserEditForm.SaveUrl` | octofit-tracker/frontend/src/components/Users.js:90 | The save goes to a URL that starts with the base URL and "/api/users/" and ends with "/". |
| `UserEditForm.HandleSaveFields` | octofit-tracker/frontend/src/components/Users.js:82-86 | The saved payload has exactly the five fields, and name, email, fitness level and avatar are the form's. |
| `UserEditForm.HandleSaveTeam` | octofit-tracker/frontend/src/components/Users.js:87 | The payload's team is null when the team field is "", and that field parsed as a decimal otherwise. |
| `UserEditForm.OpenThenSave` | octofit-tracker/frontend/src/components/Users.js:55-88 | Saving an unedited form sends back the user's strings (an empty fitness level as "beginner") and the team id, or null without a team. |
| `UserEditForm.EditTeamThenSave` | octofit-tracker/frontend/src/components/Users.js:72-87 | Setting the team field to an id's string assigns that team id; emptying it sends null. |
| `UserEditForm.OtherChangesIgnored` | octofit-tracker/frontend/src/components/Users.js:72-88 | A change to a field the payload does not read leaves the payload unchanged. |
| `UserEditForm.UserObjectRefs` | octofit-tracker/backend/octofit_tracker/serializers.py:36-39 | The parsed user view has the user's id string and team id (null without a team). |
| `UserEditForm.UserObjectStrings` | octofit-tracker/backend/octofit_tracker/serializers.py:36 | The parsed user view has the user's name, email, avatar and fitness level as strings. |
| `UserEditForm.EditStoredUser` | octofit-tracker/frontend/src/components/Users.js:55-90 | Opening and saving a stored user's view unchanged sends back the stored fields and team to the URL ending in the user's id; distinct users go to distinct URLs. |
| `PopulateDb.DrawnType` | octofit-tracker/backend/octofit_tracker/management/commands/populate_db.py:72-83 | The drawn activity type is one of the five seeded types. |
| `PopulateDb.SeedTypesAreChoices` | octofit-tracker/backend/octofit_tracker/management/commands/populate_db.py:72 | The seeded types are the first five of the seven activity-type choices. |
| `PopulateDb.SeedUserFacts` | octofit-tracker/backend/octofit_tracker/management/commands/populate_db.py:41-54 | There are ten user rows with ids 1 to 10, users 1 to 5 on team 1 and the rest on team 2, each satisfying the field rules. |
| `PopulateDb.SeedWorkoutsValid` | octofit-tracker/backend/octofit_tracker/management/commands/populate_db.py:109-184 | There are seven workouts, each satisfying the field rules. |
| `PopulateDb.TeamRoster` | octofit-tracker/backend/octofit_tracker/models.py:19 | A team's roster (`members`) has exactly the users whose team it is. |
| `PopulateDb.SeededTeams` | octofit-tracker/backend/octofit_tracker/management/commands/populate_db.py:41-65 | The stored users are 1 to 10; 1 to 5 are on team 1 and 6 to 10 on team 2. |
| `PopulateDb.SeededRoster` | octofit-tracker/backend/octofit_tracker/management/commands/populate_db.py:24-65 | The seed holds teams 1 and 2, users 1 to 10 and workouts 1 to 7 (lines 186-193); the teams' rosters are users 1 to 5 and 6 to 10. |
| `PopulateDb.SeedActivitiesValues` | octofit-tracker/backend/octofit_tracker/management/commands/populate_db.py:75-87 | With valid draws there are 5n to 10n activities for n users; each belongs to a listed user, has a seeded type, a duration from 15 to 120 and notes within the limit. |
| `PopulateDb.SeedActivitiesCount` | octofit-tracker/backend/octofit_tracker/management/commands/populate_db.py:76-77 | Five to ten draws per user give between 5n and 10n seeded activities for n users. |
| `PopulateDb.SeedActivitiesUsers` | octofit-tracker/backend/octofit_tracker/management/commands/populate_db.py:75-81 | Every seeded activity belongs to one of the listed users. |
| `PopulateDb.SeedActivitiesFields` | octofit-tracker/backend/octofit_tracker/management/commands/populate_db.py:78-86 | Every seeded activity has a seeded type, a duration from 15 to 120 and notes within the length limit. |
| `PopulateDb.UserTotalBounds` | octofit-tracker/backend/octofit_tracker/management/commands/populate_db.py:76-84 | A user's drawn activities add up to between 15 and 120 minutes per draw. |
| `PopulateDb.ScoreOfSeeded` | octofit-tracker/backend/octofit_tracker/management/commands/populate_db.py:76-98 | User i + 1's score over the seeded activities is the total of their own block, between 75 and 1200. |
| `PopulateDb.SeedActivitiesOfUser` | octofit-tracker/backend/octofit_tracker/management/commands/populate_db.py:75-88 | With distinct users, a user's seeded activities are exactly their own block: one per draw, in draw order, the j-th with note number j + 1. |
| `PopulateDb.NoneOfUser` | octofit-tracker/backend/octofit_tracker/management/commands/populate_db.py:75-88 | A user not listed gets no seeded activities. |
| `PopulateDb.SeededUserActivities` | octofit-tracker/backend/octofit_tracker/management/commands/populate_db.py:76-86 | Each seeded user has 5 to 10 activities, with notes "Great workout session #1", "#2", … in order. |
| `PopulateDb.ScoreOfRows` | octofit-tracker/backend/octofit_tracker/management/commands/populate_db.py:96-98 | For activities stored under ids 1, 2, …, a user's score is the total duration of their activities in the list. |
| `PopulateDb.SeededScore` | octofit-tracker/backend/octofit_tracker/management/commands/populate_db.py:76-98 | After seeding, user i + 1's score is the total of their drawn durations, between 75 and 1200. |
| `PopulateDb.AscendingIdsOfById` | octofit-tracker/backend/octofit_tracker/management/commands/populate_db.py:67 | Records stored under ids 1 to n are listed by id as 1, …, n. |
| `PopulateDb.ClearCollections` | octofit-tracker/backend/octofit_tracker/management/commands/populate_db.py:18-19 | All five collections end empty, whatever they held. |
| `PopulateDb.InsertTeams` | octofit-tracker/backend/octofit_tracker/management/commands/populate_db.py:24-33 | The two teams are stored under ids 1 and 2; nothing else changes. |
| `PopulateDb.InsertUsers` | octofit-tracker/backend/octofit_tracker/management/commands/populate_db.py:56-65 | The ten users are stored under their ids with their teams; nothing else changes. |
| `PopulateDb.InsertUserActivities` | octofit-tracker/backend/octofit_tracker/management/commands/populate_db.py:77-89 | One user's activities are appended under the next ids of the shared counter; the counters advance by their number. |
| `PopulateDb.InsertActivitiesOf` | octofit-tracker/backend/octofit_tracker/management/commands/populate_db.py:73-89 | The activities of all listed users are stored, user by user, under ids 1, 2, …; the counts show how many were made and that the next id is one more. |
| `PopulateDb.InsertActivities` | octofit-tracker/backend/octofit_tracker/management/commands/populate_db.py:72-89 | As `InsertActivitiesOf`, for the stored users in ascending id order (line 67). |
| `PopulateDb.TotalDuration` | octofit-tracker/backend/octofit_tracker/management/commands/populate_db.py:96-98 | The loop's sum over a user's activities equals their score. |
| `PopulateDb.CollectStandings` | octofit-tracker/backend/octofit_tracker/management/commands/populate_db.py:94-99 | One (user, total) pair per user, in ascending user id order. |
| `PopulateDb.AggregateLeaderboard` | octofit-tracker/backend/octofit_tracker/management/commands/populate_db.py:94-105 | Into an empty leaderboard it stores the computed leaderboard, each entry under its rank, and returns the number of users; other collections are untouched. |
| `PopulateDb.InsertWorkouts` | octofit-tracker/backend/octofit_tracker/management/commands/populate_db.py:186-193 | The workouts are stored under ids 1, 2, … in list order; nothing else changes. |
| `PopulateDb.Handle` | octofit-tracker/backend/octofit_tracker/management/commands/populate_db.py:12-194 | Whatever the store held, it ends valid and holding exactly the two teams, ten users, the drawn activities, the leaderboard computed from them and the seven workouts; returns the activity count. |

## Left out

- Database I/O is not modelled: the pymongo client, the djongo ORM translation and the network
  to MongoDB. The store is an in-memory class holding one map per collection.
- The command's progress and summary lines (`self.stdout.write`) are output only and are not modelled.
- The random generator and the clock are parameters (`Draw`, `now`). The model does not say that
  the draws are uniformly distributed.
- `PopulateDb.Handle`: the model returns only the number of activities. The command's final
  `activity_id` is not returned, but `InsertActivities` ensures that it is that number plus one.
- Durations and scores are `FloatField`s in the source. The model uses whole numbers, which is all
  the seeder produces.
- `Models.FloatStr`: Python's float `str` is modelled only for whole values below 10^16, as the
  digits followed by ".0". From 10^16 up, Python writes exponent form ("1e+16"), which the model
  does not produce. Every duration and score the program produces is far below that bound.
- `UserEditForm.ToJsString`: JavaScript numbers are modelled as unbounded integers, so `String(n)`
  is exact only for magnitudes below 10^21; from there up JavaScript gives exponent form ("1e+21").
- `Numerals.ParseInt`: the result is the exact integer. JavaScript rounds it to a double, which
  agrees only for magnitudes up to 2^53.
- `Numerals.ParseIntOfIntToString`: the round trip `parseInt(String(n), 10) == n` holds in the
  model for every integer; in JavaScript it holds for magnitudes up to 2^53, which covers every
  id the program hands out.
- Timestamps (`created_at`, an activity's `date`) are rendered in the views as integers. DRF
  renders a `DateTimeField` as an ISO 8601 string, and that format is not modelled.
- Ids in the store's create methods come from the caller. The parameter stands for the id
  Django's AutoField assigns when `objects.create` is called without one: any caller that picks
  a free id, such as one past the largest, gets the same record as auto-assignment gives.
- DRF renders float fields as JSON numbers such as `45.0`. The views render durations and scores
  as integers.
- `created_at` is set automatically by Django. The model takes it as the parameter `now`.
- `EmailField` format validation: only the length limit (254) is modelled, not the address syntax.
- Django validates field limits with `full_clean` or in a serializer, not on `objects.create`.
  The store's create methods check the limits on every insert. So they model the validated API
  path and are stricter than a raw ORM insert.
- `EntityStore.ListByRank`: equal ranks are listed in ascending id order. The database's own
  order for ties is not specified.
- The REST endpoints' update and partial-update paths are not modelled as store operations.
  Only the client's payload shaping is.
- `ObjectIdField` is not modelled: no serializer in the core uses it.
- The re-fetches at populate_db.py lines 35-36 and 67 work around djongo returning
  `ObjectId` keys. In the model the keys are the ids already, and the re-fetch by id order
  is `AscendingIds`.
- `PopulateDb.AggregateLeaderboard` requires an empty leaderboard. The source's aggregation
  only creates entries; the clear at lines 18-19 empties the leaderboard beforehand, and
  `Handle` shows this order of steps.
- `PopulateDb.InsertActivities` requires at most 10 draws per user, not 5 to 10, because
  storing needs only the bound that keeps the notes within their length. The lower bound is
  used in `SeededUserActivities` and `SeededScore`.
- The serializer views require every reference to resolve, as the store invariant guarantees.
  Django would raise on a dangling reference, and a view of such a record is not modelled.
- `Serializers.ActivityView`: `get_user_name`'s `None` branch cannot occur here and is not
  modelled, because an activity's user is a required reference.
- The serializers' order of keys inside an exercise's JSON object is not modelled. A workout's
  exercises are shown in the fixed order name, reps, sets, duration, distance.
- JSX rendering, the `fetch` requests, loading and error state, and `closeEdit` in the client
  are not modelled. Arrays and objects read from the API are one value (`Composite`), whose
  `String` is "[object Object]". The form never reads such a value.
- Where the design description and the code differ, the model follows the code:
  - Fitness level: the design describes it as one of beginner, intermediate, advanced and god-tier.
    The code's `fitness_level` has no choices: any text up to 50 characters, default "beginner"
    (models.py line 21).
  - Deleting a user: the design says the user's leaderboard entry goes at the next recomputation.
    The code's CASCADE removes it at once (models.py line 55).
  - Negative durations: the design lists a negative duration as a validation error. The code
    declares no validator on `duration` (models.py line 43), so `ValidActivity` places no
    bound on it and a negative duration is accepted.
  - Leaderboard ties: the design says ties keep insertion order. The code reads users in id order
    (populate_db.py line 67) and sorts stably, so ties are in ascending user id order.
