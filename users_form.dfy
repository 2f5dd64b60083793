/**
 * The user edit form of the web client. Opening it fills the five form fields from a user as
 * the API returned it; a change event replaces one field; saving builds the update payload,
 * with the team as a number, or null when the team field is empty. Only this data shaping is
 * modelled: rendering and the request itself are not.
 */
module UserEditForm {
  import opened Numerals
  import opened Models
  import opened EntityStore
  import opened Serializers

  /**
   * The JavaScript values that occur in a user as read from the API, the form and the payload;
   * `Composite` is an array or object, which the form never reads.
   */
  datatype JsValue = Undefined | Null | Str(s: string) | Num(n: int) | NotANumber | Composite

  /** A JavaScript object; a property missing from the map reads as `undefined`. */
  type JsObject = map<string, JsValue>

  function Prop(o: JsObject, k: string): JsValue {
    if k in o then o[k] else Undefined
  }

  /** JavaScript truthiness: false for undefined, null, NaN, the empty string and zero. */
  predicate Truthy(v: JsValue) {
    match v
    case Str(s) => s != ""
    case Num(n) => n != 0
    case Composite => true
    case _ => false
  }

  /** `a || b`. */
  function Or(a: JsValue, b: JsValue): JsValue {
    if Truthy(a) then a else b
  }

  /** `String(v)`. */
  function ToJsString(v: JsValue): string {
    match v
    case Undefined => "undefined"
    case Null => "null"
    case Str(s) => s
    case Num(n) => IntToString(n)
    case NotANumber => "NaN"
    case Composite => "[object Object]"
  }

  /** `parseInt(v, 10)`. */
  function ParseDecimal(v: JsValue): JsValue {
    match ParseInt(ToJsString(v))
    case NaN => NotANumber
    case Int(n) => Num(n)
  }

  /** The options the form offers for the fitness level. */
  const FitnessLevels: seq<string> := ["beginner", "intermediate", "advanced"]

  const FormFields: set<string> := {"name", "email", "fitness_level", "avatar", "team"}

  // The three handlers.

  /** `openEdit`: the form for `user`. */
  function OpenEdit(user: JsObject): (form: JsObject)
    ensures form.Keys == FormFields
  {
    var team := Prop(user, "team");
    map[
      "name" := Or(Prop(user, "name"), Str("")),
      "email" := Or(Prop(user, "email"), Str("")),
      "fitness_level" := Or(Prop(user, "fitness_level"), Str("beginner")),
      "avatar" := Or(Prop(user, "avatar"), Str("")),
      "team" := Str(if team == Undefined || team == Null then "" else ToJsString(team))]
  }

  /** `handleChange`: the input named `name` now holds `value`. */
  function HandleChange(form: JsObject, name: string, value: string): (r: JsObject)
    ensures r.Keys == form.Keys + {name} && r[name] == Str(value)
    ensures forall k :: k in form && k != name ==> r[k] == form[k]
  {
    form[name := Str(value)]
  }

  /** The payload's team: null for an empty team field, the parsed number otherwise. */
  function TeamValue(team: JsValue): JsValue {
    if team != Str("") then ParseDecimal(team) else Null
  }

  /** The payload object: four fields copied from the form, and the given team. */
  function Payload(form: JsObject, team: JsValue): JsObject {
    map[
      "name" := Prop(form, "name"),
      "email" := Prop(form, "email"),
      "fitness_level" := Prop(form, "fitness_level"),
      "avatar" := Prop(form, "avatar"),
      "team" := team]
  }

  /** `handleSave`: the payload sent for `form`. */
  function HandleSave(form: JsObject): (payload: JsObject)
    ensures payload.Keys == FormFields
  {
    Payload(form, TeamValue(Prop(form, "team")))
  }

  /** Where the payload for `user` is sent. */
  function SaveUrl(base: string, user: JsObject): (url: string)
    ensures base + "/api/users/" <= url && url[|url| - 1] == '/'
  {
    base + "/api/users/" + ToJsString(Prop(user, "id")) + "/"
  }

  // Properties of the form.

  /**
   * Opening the form yields the five fields. Name, email and avatar are copied when truthy and
   * are the empty string otherwise. The fitness level is copied when truthy, whatever it is,
   * and is "beginner" otherwise. The team is empty when missing or null, and its string form
   * otherwise.
   */
  lemma OpenEditFields(user: JsObject)
    ensures OpenEdit(user).Keys == FormFields
    ensures Prop(OpenEdit(user), "name") == Or(Prop(user, "name"), Str(""))
    ensures Prop(OpenEdit(user), "email") == Or(Prop(user, "email"), Str(""))
    ensures Prop(OpenEdit(user), "avatar") == Or(Prop(user, "avatar"), Str(""))
    ensures Prop(OpenEdit(user), "fitness_level") == Or(Prop(user, "fitness_level"), Str("beginner"))
    ensures Prop(user, "team") == Undefined || Prop(user, "team") == Null ==> Prop(OpenEdit(user), "team") == Str("")
    ensures forall n :: Prop(user, "team") == Num(n) ==> Prop(OpenEdit(user), "team") == Str(IntToString(n))
  {
  }

  /** A fitness level the form does not offer, such as "god-tier", is kept as it is. */
  lemma OpenEditKeepsUnlistedLevel(user: JsObject)
    requires Prop(user, "fitness_level") == Str("god-tier")
    ensures "god-tier" !in FitnessLevels
    ensures Prop(OpenEdit(user), "fitness_level") == Str("god-tier")
  {
  }

  /** A change event replaces the named field and leaves every other field as it was. */
  lemma HandleChangeFrame(form: JsObject, name: string, value: string)
    ensures HandleChange(form, name, value).Keys == form.Keys + {name}
    ensures HandleChange(form, name, value)[name] == Str(value)
    ensures forall k :: k in form && k != name ==> HandleChange(form, name, value)[k] == form[k]
  {
  }

  /** Parsing the decimal string of a number gives the number back. */
  lemma TeamValueOfNumber(n: int)
    ensures TeamValue(Str(IntToString(n))) == Num(n)
  {
    ParseIntOfIntToString(n);
  }

  lemma PayloadFields(form: JsObject, team: JsValue)
    ensures Payload(form, team).Keys == FormFields
    ensures Prop(Payload(form, team), "name") == Prop(form, "name")
    ensures Prop(Payload(form, team), "email") == Prop(form, "email")
    ensures Prop(Payload(form, team), "fitness_level") == Prop(form, "fitness_level")
    ensures Prop(Payload(form, team), "avatar") == Prop(form, "avatar")
    ensures Prop(Payload(form, team), "team") == team
  {
  }

  /** The payload has exactly the five fields; name, email, fitness level and avatar are the form's. */
  lemma HandleSaveFields(form: JsObject)
    ensures HandleSave(form).Keys == FormFields
    ensures Prop(HandleSave(form), "name") == Prop(form, "name")
    ensures Prop(HandleSave(form), "email") == Prop(form, "email")
    ensures Prop(HandleSave(form), "fitness_level") == Prop(form, "fitness_level")
    ensures Prop(HandleSave(form), "avatar") == Prop(form, "avatar")
  {
    PayloadFields(form, TeamValue(Prop(form, "team")));
  }

  /**
   * The payload's team is null when the team field is the empty string, and the team field
   * parsed as a decimal number otherwise.
   */
  lemma HandleSaveTeam(form: JsObject)
    ensures Prop(HandleSave(form), "team") == TeamValue(Prop(form, "team"))
    ensures Prop(form, "team") == Str("") ==> Prop(HandleSave(form), "team") == Null
    ensures Prop(form, "team") != Str("") ==> Prop(HandleSave(form), "team") == ParseDecimal(Prop(form, "team"))
  {
    PayloadFields(form, TeamValue(Prop(form, "team")));
  }

  /**
   * Saving an unedited form sends the user's fields back: string fields as they were (the
   * fitness level "beginner" when it was empty), and the team id, or null when the user has
   * no team.
   */
  lemma OpenThenSave(user: JsObject, name: string, email: string, avatar: string, level: string)
    requires Prop(user, "name") == Str(name) && Prop(user, "email") == Str(email)
    requires Prop(user, "avatar") == Str(avatar) && Prop(user, "fitness_level") == Str(level)
    ensures var payload := HandleSave(OpenEdit(user));
      && Prop(payload, "name") == Str(name) && Prop(payload, "email") == Str(email)
      && Prop(payload, "avatar") == Str(avatar)
      && Prop(payload, "fitness_level") == Str(if level == "" then "beginner" else level)
      && (Prop(user, "team") == Undefined || Prop(user, "team") == Null ==> Prop(payload, "team") == Null)
      && (forall n :: Prop(user, "team") == Num(n) ==> Prop(payload, "team") == Num(n))
  {
    var form := OpenEdit(user);
    OpenEditFields(user);
    HandleSaveFields(form);
    HandleSaveTeam(form);
    forall n | Prop(user, "team") == Num(n) ensures Prop(HandleSave(form), "team") == Num(n) {
      TeamValueOfNumber(n);
    }
  }

  /** Editing the team field to an id's decimal string assigns that team, and emptying it clears it. */
  lemma EditTeamThenSave(form: JsObject, id: nat)
    ensures Prop(HandleSave(HandleChange(form, "team", IdOf(id))), "team") == Num(id)
    ensures Prop(HandleSave(HandleChange(form, "team", "")), "team") == Null
  {
    IdOfIsIntToString(id);
    TeamValueOfNumber(id);
    HandleSaveTeam(HandleChange(form, "team", IdOf(id)));
    HandleSaveTeam(HandleChange(form, "team", ""));
  }

  lemma {:induction false} IdOfIsIntToString(n: nat)
    ensures IdOf(n) == IntToString(n)
  {
  }

  /** A change to a field the payload does not read leaves the payload as it was. */
  lemma OtherChangesIgnored(form: JsObject, name: string, value: string)
    requires name !in FormFields
    ensures HandleSave(HandleChange(form, name, value)) == HandleSave(form)
  {
  }

  // The form of a user as the API renders it.

  /** A JSON value as the client reads it. */
  function FromJson(j: Json): JsValue {
    match j
    case JNull => Null
    case JInt(n) => Num(n)
    case JString(s) => Str(s)
    case _ => Composite
  }

  /**
   * The object a view parses to. Views have distinct keys (the serializer field lists), so which
   * duplicate would win never arises; here it is the first.
   */
  function ObjectOf(v: View): JsObject {
    if v == [] then map[] else ObjectOf(v[1..])[v[0].key := FromJson(v[0].value)]
  }

  /** A property of the parsed object is the value of the view's first member of that key. */
  lemma {:induction false} PropAt(v: View, i: nat)
    requires i < |v| && forall j :: 0 <= j < i ==> v[j].key != v[i].key
    ensures Prop(ObjectOf(v), v[i].key) == FromJson(v[i].value)
  {
    if i > 0 {
      PropAt(v[1..], i - 1);
    }
  }

  /** The view of `u` parses to an object with the user's id and team ... */
  lemma UserObjectRefs(pk: nat, u: User, teams: map<nat, Team>)
    requires TeamRefOk(u, teams)
    ensures var user := ObjectOf(UserView(pk, u, teams));
      && Prop(user, "id") == Str(IdOf(pk))
      && Prop(user, "team") == (if u.team.Some? then Num(u.team.value) else Null)
  {
    var v := UserView(pk, u, teams);
    PropAt(v, 0);
    PropAt(v, 3);
  }

  /** ... and with the user's name, email, avatar and fitness level as strings. */
  lemma UserObjectStrings(pk: nat, u: User, teams: map<nat, Team>)
    requires TeamRefOk(u, teams)
    ensures var user := ObjectOf(UserView(pk, u, teams));
      && Prop(user, "name") == Str(u.name) && Prop(user, "email") == Str(u.email)
      && Prop(user, "avatar") == Str(u.avatar) && Prop(user, "fitness_level") == Str(u.fitnessLevel)
  {
    var v := UserView(pk, u, teams);
    PropAt(v, 1);
    PropAt(v, 2);
    PropAt(v, 5);
    PropAt(v, 6);
  }

  /**
   * Editing a stored user without changes sends back the stored name, email, avatar, fitness
   * level and team (a stored empty fitness level goes back as "beginner"), to the URL ending in
   * the user's id; distinct users are saved to distinct URLs.
   */
  lemma EditStoredUser(base: string, pk: nat, u: User, other: nat, w: User, teams: map<nat, Team>)
    requires TeamRefOk(u, teams) && TeamRefOk(w, teams)
    ensures var payload := HandleSave(OpenEdit(ObjectOf(UserView(pk, u, teams))));
      && Prop(payload, "name") == Str(u.name) && Prop(payload, "email") == Str(u.email)
      && Prop(payload, "avatar") == Str(u.avatar)
      && Prop(payload, "fitness_level") == Str(if u.fitnessLevel == "" then DefaultFitnessLevel else u.fitnessLevel)
      && Prop(payload, "team") == (if u.team.Some? then Num(u.team.value) else Null)
    ensures SaveUrl(base, ObjectOf(UserView(pk, u, teams))) == base + "/api/users/" + IdOf(pk) + "/"
    ensures SaveUrl(base, ObjectOf(UserView(pk, u, teams))) == SaveUrl(base, ObjectOf(UserView(other, w, teams)))
      <==> pk == other
  {
    UserObjectRefs(pk, u, teams);
    UserObjectStrings(pk, u, teams);
    UserObjectRefs(other, w, teams);
    OpenThenSave(ObjectOf(UserView(pk, u, teams)), u.name, u.email, u.avatar, u.fitnessLevel);
    IdOfInjective(pk, other);
    UrlCancel(base + "/api/users/", IdOf(pk), IdOf(other), "/");
  }

  lemma UrlCancel(prefix: string, x: string, y: string, suffix: string)
    ensures prefix + x + suffix == prefix + y + suffix <==> x == y
  {
    if prefix + x + suffix == prefix + y + suffix {
      var a := prefix + x + suffix;
      var b := prefix + y + suffix;
      assert |x| == |y|;
      assert x == a[|prefix|..|prefix| + |x|];
      assert y == b[|prefix|..|prefix| + |y|];
    }
  }
}
