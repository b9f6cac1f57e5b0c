/** The user handlers: create, update and delete users, and read or upsert
    a user's travel preferences. */
module UserController {
  import opened Common
  import opened Store

  /** Whether a user other than `id` already has `email`. */
  predicate EmailUsedByOther(db: Db, id: Id, email: string)
    reads db`users
  {
    exists u :: u in db.users && u != id && db.users[u].email == email
  }

  /** createUser: name and email are required and the email must be new. */
  method CreateUser(db: Db, name: Option<string>, email: Option<string>)
    returns (status: int, created: Option<Id>)
    requires db.Valid()
    modifies db`users
    ensures db.Valid()
    ensures !TruthyString(name) || !TruthyString(email) ==>
      status == StatusBadRequest && created == None && db.users == old(db.users)
    ensures TruthyString(name) && TruthyString(email) && old(db.EmailTaken(email.value)) ==>
      status == StatusBadRequest && created == None && db.users == old(db.users)
    ensures TruthyString(name) && TruthyString(email) && !old(db.EmailTaken(email.value)) ==>
      && status == StatusCreated
      && created.Some? && created.value !in old(db.Ids())
      && db.users == old(db.users)[created.value := User(name.value, email.value)]
  {
    if !TruthyString(name) || !TruthyString(email) {
      return StatusBadRequest, None;
    }
    if db.EmailTaken(email.value) {
      return StatusBadRequest, None;
    }
    var id := FreshId(db.Ids());
    db.users := db.users[id := User(name.value, email.value)];
    return StatusCreated, Some(id);
  }

  /** updateUser: name and email are overwritten only by truthy values. An
      email another user already has is refused by the store's unique
      constraint, which the handler reports as a server error. */
  method UpdateUser(db: Db, id: Id, name: Option<string>, email: Option<string>) returns (status: int)
    requires db.Valid()
    modifies db`users
    ensures db.Valid()
    ensures id !in old(db.users) ==> status == StatusNotFound && db.users == old(db.users)
    ensures id in old(db.users) && TruthyString(email) && old(EmailUsedByOther(db, id, email.value)) ==>
      status == StatusServerError && db.users == old(db.users)
    ensures id in old(db.users) && !(TruthyString(email) && old(EmailUsedByOther(db, id, email.value))) ==>
      && status == StatusOk
      && id in db.users && db.users.Keys == old(db.users.Keys)
      && db.users[id].name == (if TruthyString(name) then name.value else old(db.users[id].name))
      && db.users[id].email == (if TruthyString(email) then email.value else old(db.users[id].email))
      && forall u :: u in old(db.users) && u != id ==> db.users[u] == old(db.users[u])
  {
    if id !in db.users {
      return StatusNotFound;
    }
    var user := db.users[id];
    if TruthyString(email) && EmailUsedByOther(db, id, email.value) {
      return StatusServerError;
    }
    if TruthyString(name) {
      user := user.(name := name.value);
    }
    if TruthyString(email) {
      user := user.(email := email.value);
    }
    db.users := db.users[id := user];
    return StatusOk;
  }

  /** deleteUser: removes the user row; rows that refer to it are kept. */
  method DeleteUser(db: Db, id: Id) returns (status: int)
    requires db.Valid()
    modifies db`users
    ensures db.Valid()
    ensures id !in old(db.users) ==> status == StatusNotFound && db.users == old(db.users)
    ensures id in old(db.users) ==> status == StatusNoContent && db.users == old(db.users) - {id}
  {
    if id !in db.users {
      return StatusNotFound;
    }
    db.users := db.users - {id};
    return StatusNoContent;
  }

  /** getUserPreferences: the user's record, or not found. */
  method GetUserPreferences(db: Db, id: Id) returns (status: int, prefs: Option<Preferences>)
    ensures id !in db.preferences ==> status == StatusNotFound && prefs == None
    ensures id in db.preferences ==> status == StatusOk && prefs == Some(db.preferences[id])
  {
    if id !in db.preferences {
      return StatusNotFound, None;
    }
    return StatusOk, Some(db.preferences[id]);
  }

  /** The fields of a preferences request body; `None` is an absent field. */
  datatype PreferencesRequest = PreferencesRequest(
    travelStyle: Option<seq<string>>,
    budget: Option<int>,
    mustHaves: Option<seq<string>>,
    avoidList: Option<seq<string>>,
    foodPrefs: Option<seq<string>>,
    activityLevel: Option<string>,
    additionalNotes: Option<string>)

  /** The record a first write starts from when a field is absent. */
  const DefaultPreferences := Preferences([], 0, [], [], [], "medium", None)

  /** The first write: each field as given when truthy, else its default;
      the notes exactly as given. */
  function NewPreferences(req: PreferencesRequest): (p: Preferences)
    ensures req.travelStyle.None? ==> p.travelStyle == []
    ensures req.mustHaves.None? ==> p.mustHaves == []
    ensures req.avoidList.None? ==> p.avoidList == []
    ensures req.foodPrefs.None? ==> p.foodPrefs == []
    ensures req.travelStyle.Some? ==> p.travelStyle == req.travelStyle.value
    ensures req.mustHaves.Some? ==> p.mustHaves == req.mustHaves.value
    ensures req.avoidList.Some? ==> p.avoidList == req.avoidList.value
    ensures req.foodPrefs.Some? ==> p.foodPrefs == req.foodPrefs.value
    ensures p.budget == (if TruthyNumber(req.budget) then req.budget.value else 0)
    ensures p.activityLevel != ""
    ensures TruthyString(req.activityLevel) ==> p.activityLevel == req.activityLevel.value
    ensures !TruthyString(req.activityLevel) ==> p.activityLevel == "medium"
    ensures p.additionalNotes == req.additionalNotes
  {
    Preferences(
      if TruthyArray(req.travelStyle) then req.travelStyle.value else [],
      if TruthyNumber(req.budget) then req.budget.value else 0,
      if TruthyArray(req.mustHaves) then req.mustHaves.value else [],
      if TruthyArray(req.avoidList) then req.avoidList.value else [],
      if TruthyArray(req.foodPrefs) then req.foodPrefs.value else [],
      if TruthyString(req.activityLevel) then req.activityLevel.value else "medium",
      req.additionalNotes)
  }

  /** A later write: a truthy field replaces the stored one, a falsy one
      leaves it; the notes are replaced whenever they are given. Every
      array is truthy, so a given empty list clears the stored one, while a
      budget of 0 or an empty activity level clears nothing. */
  function MergePreferences(p: Preferences, req: PreferencesRequest): (r: Preferences)
    ensures req.travelStyle.None? ==> r.travelStyle == p.travelStyle
    ensures req.mustHaves.None? ==> r.mustHaves == p.mustHaves
    ensures req.avoidList.None? ==> r.avoidList == p.avoidList
    ensures req.foodPrefs.None? ==> r.foodPrefs == p.foodPrefs
    ensures req.travelStyle.Some? ==> r.travelStyle == req.travelStyle.value
    ensures req.mustHaves.Some? ==> r.mustHaves == req.mustHaves.value
    ensures req.avoidList.Some? ==> r.avoidList == req.avoidList.value
    ensures req.foodPrefs.Some? ==> r.foodPrefs == req.foodPrefs.value
    ensures TruthyNumber(req.budget) ==> r.budget == req.budget.value
    ensures !TruthyNumber(req.budget) ==> r.budget == p.budget
    ensures TruthyString(req.activityLevel) ==> r.activityLevel == req.activityLevel.value
    ensures p.budget != 0 ==> r.budget != 0
    ensures p.activityLevel != "" ==> r.activityLevel != ""
    ensures !TruthyString(req.activityLevel) ==> r.activityLevel == p.activityLevel
    ensures req.additionalNotes.None? ==> r.additionalNotes == p.additionalNotes
    ensures req.additionalNotes.Some? ==> r.additionalNotes == req.additionalNotes
  {
    p.(
      travelStyle := if TruthyArray(req.travelStyle) then req.travelStyle.value else p.travelStyle,
      budget := if TruthyNumber(req.budget) then req.budget.value else p.budget,
      mustHaves := if TruthyArray(req.mustHaves) then req.mustHaves.value else p.mustHaves,
      avoidList := if TruthyArray(req.avoidList) then req.avoidList.value else p.avoidList,
      foodPrefs := if TruthyArray(req.foodPrefs) then req.foodPrefs.value else p.foodPrefs,
      activityLevel := if TruthyString(req.activityLevel) then req.activityLevel.value else p.activityLevel,
      additionalNotes := if req.additionalNotes.Some? then req.additionalNotes else p.additionalNotes)
  }

  /** The create branch and the update branch agree: a first write is a
      merge into the default record. */
  lemma FirstWriteIsMergeIntoDefaults(req: PreferencesRequest)
    ensures NewPreferences(req) == MergePreferences(DefaultPreferences, req)
  {
  }

  /** Sending the same preferences twice stores the same record as sending them once. */
  lemma MergeIdempotent(p: Preferences, req: PreferencesRequest)
    ensures MergePreferences(MergePreferences(p, req), req) == MergePreferences(p, req)
  {
  }

  /** updateUserPreferences: creates the user's record on the first call and
      merges into it afterwards; either way the user then has one record. */
  method UpdateUserPreferences(db: Db, id: Id, req: PreferencesRequest)
    returns (status: int, prefs: Option<Preferences>)
    requires db.Valid()
    modifies db`preferences
    ensures db.Valid()
    ensures id !in old(db.users) ==>
      status == StatusNotFound && prefs == None && db.preferences == old(db.preferences)
    ensures id in old(db.users) && id !in old(db.preferences) ==>
      && status == StatusOk && prefs == Some(NewPreferences(req))
      && db.preferences == old(db.preferences)[id := NewPreferences(req)]
    ensures id in old(db.users) && id in old(db.preferences) ==>
      && status == StatusOk && prefs == Some(MergePreferences(old(db.preferences[id]), req))
      && db.preferences == old(db.preferences)[id := MergePreferences(old(db.preferences[id]), req)]
  {
    if id !in db.users {
      return StatusNotFound, None;
    }
    var userPreferences;
    if id in db.preferences {
      userPreferences := MergePreferences(db.preferences[id], req);
    } else {
      userPreferences := NewPreferences(req);
    }
    db.preferences := db.preferences[id := userPreferences];
    return StatusOk, Some(userPreferences);
  }
}
