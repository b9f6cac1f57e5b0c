/** The itinerary handlers: create, update and delete itineraries, vote and
    comment on them, and generate one from the group members' preferences
    through an external text-generation service. */
module ItineraryController {
  import opened Common
  import opened Store
  import opened PromptComposer

  /** createItinerary: group, title and content are required, the group must exist. */
  method CreateItinerary(
    db: Db, groupId: Option<Id>, title: Option<string>, description: Option<string>, content: Option<Json>)
    returns (status: int, created: Option<Id>)
    requires db.Valid()
    modifies db`itineraries
    ensures db.Valid()
    ensures !TruthyString(groupId) || !TruthyString(title) || !TruthyJson(content) ==>
      status == StatusBadRequest && created == None && db.itineraries == old(db.itineraries)
    ensures TruthyString(groupId) && TruthyString(title) && TruthyJson(content) && groupId.value !in old(db.groups) ==>
      status == StatusNotFound && created == None && db.itineraries == old(db.itineraries)
    ensures TruthyString(groupId) && TruthyString(title) && TruthyJson(content) && groupId.value in old(db.groups) ==>
      && status == StatusCreated && created.Some?
      && created.value !in old(db.itineraries)
      && db.itineraries == old(db.itineraries)[created.value :=
           Itinerary(groupId.value, title.value, description, content.value, false)]
  {
    if !TruthyString(groupId) || !TruthyString(title) || !TruthyJson(content) {
      return StatusBadRequest, None;
    }
    if groupId.value !in db.groups {
      return StatusNotFound, None;
    }
    var id := FreshId(db.Ids());
    db.itineraries := db.itineraries[id := Itinerary(groupId.value, title.value, description, content.value, false)];
    return StatusCreated, Some(id);
  }

  /** updateItinerary: title and content are overwritten only by truthy
      values, description and the finalized flag whenever they are given. */
  method UpdateItinerary(
    db: Db, id: Id, title: Option<string>, description: Option<string>, content: Option<Json>,
    isFinalized: Option<bool>)
    returns (status: int)
    requires db.Valid()
    modifies db`itineraries
    ensures db.Valid()
    ensures id !in old(db.itineraries) ==> status == StatusNotFound && db.itineraries == old(db.itineraries)
    ensures id in old(db.itineraries) ==>
      && status == StatusOk
      && db.itineraries.Keys == old(db.itineraries.Keys)
      && (forall i :: i in old(db.itineraries) && i != id ==> db.itineraries[i] == old(db.itineraries[i]))
      && var before, after := old(db.itineraries[id]), db.itineraries[id];
      && after.groupId == before.groupId
      && after.title == (if TruthyString(title) then title.value else before.title)
      && after.description == (if description.Some? then description else before.description)
      && after.content == (if TruthyJson(content) then content.value else before.content)
      && after.isFinalized == (if isFinalized.Some? then isFinalized.value else before.isFinalized)
  {
    if id !in db.itineraries {
      return StatusNotFound;
    }
    var itinerary := db.itineraries[id];
    if TruthyString(title) {
      itinerary := itinerary.(title := title.value);
    }
    if description.Some? {
      itinerary := itinerary.(description := description);
    }
    if TruthyJson(content) {
      itinerary := itinerary.(content := content.value);
    }
    if isFinalized.Some? {
      itinerary := itinerary.(isFinalized := isFinalized.value);
    }
    db.itineraries := db.itineraries[id := itinerary];
    return StatusOk;
  }

  /** deleteItinerary: removes the itinerary row; its votes and comments are kept. */
  method DeleteItinerary(db: Db, id: Id) returns (status: int)
    requires db.Valid()
    modifies db`itineraries
    ensures db.Valid()
    ensures id !in old(db.itineraries) ==> status == StatusNotFound && db.itineraries == old(db.itineraries)
    ensures id in old(db.itineraries) ==>
      status == StatusNoContent && db.itineraries == old(db.itineraries) - {id}
  {
    if id !in db.itineraries {
      return StatusNotFound;
    }
    db.itineraries := db.itineraries - {id};
    return StatusNoContent;
  }

  /** voteOnItinerary: user id and value are required (a value of 0 is a
      value); the itinerary is looked up before the user. The vote of the
      pair is created or overwritten, never added to, and no other vote
      changes. */
  method VoteOnItinerary(db: Db, id: Id, userId: Option<Id>, value: Option<int>) returns (status: int)
    requires db.Valid()
    modifies db`votes
    ensures db.Valid()
    ensures !TruthyString(userId) || value.None? ==> status == StatusBadRequest && db.votes == old(db.votes)
    ensures TruthyString(userId) && value.Some? && id !in old(db.itineraries) ==>
      status == StatusNotFound && db.votes == old(db.votes)
    ensures TruthyString(userId) && value.Some? && id in old(db.itineraries) && userId.value !in old(db.users) ==>
      status == StatusNotFound && db.votes == old(db.votes)
    ensures TruthyString(userId) && value.Some? && id in old(db.itineraries) && userId.value in old(db.users) ==>
      && status == StatusOk
      && db.votes == old(db.votes)[(userId.value, id) := value.value]
      && (userId.value, id) in db.votes && db.votes[(userId.value, id)] == value.value
      && forall k :: k in old(db.votes) && k != (userId.value, id) ==> k in db.votes && db.votes[k] == old(db.votes[k])
  {
    if !TruthyString(userId) || value.None? {
      return StatusBadRequest;
    }
    if id !in db.itineraries {
      return StatusNotFound;
    }
    if userId.value !in db.users {
      return StatusNotFound;
    }
    var key := (userId.value, id);
    // `prisma.vote.update` for an existing vote and `prisma.vote.create` for
    // a new one both leave the value under the pair's key.
    if key in db.votes {
      db.votes := db.votes[key := value.value];
    } else {
      db.votes := db.votes[key := value.value];
    }
    return StatusOk;
  }

  /** Voting twice as the same user leaves the second value, not a sum. */
  lemma {:induction false} RevoteOverwrites(votes: map<(Id, Id), int>, key: (Id, Id), first: int, second: int)
    ensures votes[key := first][key := second] == votes[key := second]
    ensures votes[key := first][key := second][key] == second
  {
    var once, twice := votes[key := second], votes[key := first][key := second];
    assert once.Keys == twice.Keys;
    assert forall k :: k in once ==> once[k] == twice[k];
  }

  /** commentOnItinerary: user id and non-empty content are required, the
      itinerary and the user must exist; the comment is appended and the
      earlier ones stay as they were. */
  method CommentOnItinerary(db: Db, id: Id, userId: Option<Id>, content: Option<string>) returns (status: int)
    requires db.Valid()
    modifies db`comments
    ensures db.Valid()
    ensures !TruthyString(userId) || !TruthyString(content) ==>
      status == StatusBadRequest && db.comments == old(db.comments)
    ensures TruthyString(userId) && TruthyString(content) && id !in old(db.itineraries) ==>
      status == StatusNotFound && db.comments == old(db.comments)
    ensures TruthyString(userId) && TruthyString(content) && id in old(db.itineraries) && userId.value !in old(db.users) ==>
      status == StatusNotFound && db.comments == old(db.comments)
    ensures TruthyString(userId) && TruthyString(content) && id in old(db.itineraries) && userId.value in old(db.users) ==>
      && status == StatusCreated
      && db.comments == old(db.comments) + [Comment(id, userId.value, content.value)]
      && |db.comments| == |old(db.comments)| + 1
      && db.comments[..|old(db.comments)|] == old(db.comments)
  {
    if !TruthyString(userId) || !TruthyString(content) {
      return StatusBadRequest;
    }
    if id !in db.itineraries {
      return StatusNotFound;
    }
    if userId.value !in db.users {
      return StatusNotFound;
    }
    db.comments := db.comments + [Comment(id, userId.value, content.value)];
    return StatusCreated;
  }

  /** `ms` lists the elements of `s`, each once. */
  ghost predicate Listing(ms: seq<Id>, s: set<Id>) {
    && (forall i, j :: 0 <= i < j < |ms| ==> ms[i] != ms[j])
    && (forall m :: m in ms <==> m in s)
  }

  /** The members of a group as the store returns them: each once, in an
      order the store chooses. */
  method ListMembers(all: set<Id>) returns (members: seq<Id>)
    ensures Listing(members, all)
    ensures |members| == |all|
  {
    var rest := all;
    members := [];
    while rest != {}
      invariant rest <= all
      invariant forall m :: m in members <==> m in all && m !in rest
      invariant forall i, j :: 0 <= i < j < |members| ==> members[i] != members[j]
      invariant |members| + |rest| == |all|
      decreases |rest|
    {
      var m :| m in rest;
      members := members + [m];
      rest := rest - {m};
    }
  }

  /** A listing is as long as the set it lists. */
  lemma {:induction false} ListingSize(ms: seq<Id>, s: set<Id>)
    requires Listing(ms, s)
    ensures |ms| == |s|
    decreases |ms|
  {
    if ms != [] {
      var last := ms[|ms| - 1];
      var init := ms[..|ms| - 1];
      assert forall m :: m in init <==> m in s - {last} by {
        forall m ensures m in init <==> m in s - {last} {
          if m in init {
            var i :| 0 <= i < |init| && init[i] == m;
            assert ms[i] == m && i < |ms| - 1;
          }
          if m in s - {last} {
            assert m in ms;
            var i :| 0 <= i < |ms| && ms[i] == m;
            assert i != |ms| - 1;
            assert init[i] == m;
          }
        }
      }
      ListingSize(init, s - {last});
    }
  }

  /** A member whose user has a preference record. */
  predicate HasPreferences(users: map<Id, User>, prefs: map<Id, Preferences>, m: Id) {
    m in users && m in prefs
  }

  function EntryOf(users: map<Id, User>, prefs: map<Id, Preferences>, m: Id): MemberPreferences
    requires HasPreferences(users, prefs, m)
  {
    MemberPreferences(users[m].name, prefs[m])
  }

  /** The preference filter of generateItinerary: the members that have
      preferences, with their names, in the order of `ms`. */
  function PreferenceEntries(ms: seq<Id>, users: map<Id, User>, prefs: map<Id, Preferences>)
    : (r: seq<MemberPreferences>)
    ensures |r| <= |ms|
    ensures forall i :: 0 <= i < |ms| && HasPreferences(users, prefs, ms[i]) ==> EntryOf(users, prefs, ms[i]) in r
    ensures forall e :: e in r ==>
      exists i :: 0 <= i < |ms| && HasPreferences(users, prefs, ms[i]) && e == EntryOf(users, prefs, ms[i])
    decreases |ms|
  {
    if ms == [] then []
    else
      var init, last := ms[..|ms| - 1], ms[|ms| - 1];
      var entries := PreferenceEntries(init, users, prefs);
      assert forall i :: 0 <= i < |init| ==> init[i] == ms[i];
      if HasPreferences(users, prefs, last) then entries + [EntryOf(users, prefs, last)] else entries
  }

  /** The filter keeps member order: filtering a concatenation is
      concatenating the filtered parts. */
  lemma {:induction false} PreferenceEntriesAppend(
    a: seq<Id>, b: seq<Id>, users: map<Id, User>, prefs: map<Id, Preferences>)
    ensures PreferenceEntries(a + b, users, prefs) == PreferenceEntries(a, users, prefs) + PreferenceEntries(b, users, prefs)
    decreases |b|
  {
    if b != [] {
      var init := b[..|b| - 1];
      assert (a + b)[..|a + b| - 1] == a + init;
      PreferenceEntriesAppend(a, init, users, prefs);
    } else {
      assert a + b == a;
    }
  }

  /** Some member of `members` has a preference record. */
  predicate AnyPreferences(members: set<Id>, users: map<Id, User>, prefs: map<Id, Preferences>) {
    exists m :: m in members && HasPreferences(users, prefs, m)
  }

  /** The filter comes back empty exactly when no listed member has preferences. */
  lemma EntriesEmptyIff(ms: seq<Id>, s: set<Id>, users: map<Id, User>, prefs: map<Id, Preferences>)
    requires Listing(ms, s)
    ensures PreferenceEntries(ms, users, prefs) == [] <==> !AnyPreferences(s, users, prefs)
  {
    var r := PreferenceEntries(ms, users, prefs);
    if AnyPreferences(s, users, prefs) {
      var m :| m in s && HasPreferences(users, prefs, m);
      var i :| 0 <= i < |ms| && ms[i] == m;
      assert EntryOf(users, prefs, ms[i]) in r;
    }
    if r != [] {
      assert r[0] in r;
      var i :| 0 <= i < |ms| && HasPreferences(users, prefs, ms[i]) && r[0] == EntryOf(users, prefs, ms[i]);
      assert ms[i] in s;
    }
  }

  /** Two formatted dates joined by " to " are never the word "Flexible",
      which holds no space, whatever the formatter produced. */
  lemma JoinedNotFlexible(start: string, end: string)
    ensures start + " to " + end != "Flexible"
  {
    var joined := start + " to " + end;
    if |joined| == |"Flexible"| {
      assert joined[|start|] == ' ';
      assert "Flexible"[|start|] != ' ';
    }
  }

  /** The trip's dates as the prompt states them: both dates formatted
      when both are given, otherwise "Flexible". The prompt says "Flexible"
      exactly when a date is missing, for every date formatter. */
  function DateRange(startDate: Option<string>, endDate: Option<string>, formatDate: string -> string): (r: string)
    ensures r == "Flexible" <==> !(TruthyString(startDate) && TruthyString(endDate))
    ensures TruthyString(startDate) && TruthyString(endDate) ==>
      r == formatDate(startDate.value) + " to " + formatDate(endDate.value)
  {
    if TruthyString(startDate) && TruthyString(endDate) then
      JoinedNotFlexible(formatDate(startDate.value), formatDate(endDate.value));
      formatDate(startDate.value) + " to " + formatDate(endDate.value)
    else
      "Flexible"
  }

  /** `data` is what the prompt for a trip of the group whose members are
      `group` to `destination` on `dateRange` is built from: the members
      listed in some order, the group size counting all of them, and the
      preferences of those who have some, of whom there is at least one. */
  ghost predicate RequestFor(
    group: set<Id>, users: map<Id, User>, prefs: map<Id, Preferences>,
    destination: string, dateRange: string, data: PromptData)
  {
    exists members ::
      && Listing(members, group)
      && PreferenceEntries(members, users, prefs) != []
      && data == PromptData(destination, dateRange, |members|, PreferenceEntries(members, users, prefs))
  }

  /** What a generation request carries: the size of the whole group, and
      one entry per member with preferences, named after that member, so
      never more entries than members and never none. */
  lemma RequestContents(
    group: set<Id>, users: map<Id, User>, prefs: map<Id, Preferences>,
    destination: string, dateRange: string, data: PromptData)
    requires RequestFor(group, users, prefs, destination, dateRange, data)
    ensures data.destination == destination && data.dateRange == dateRange
    ensures data.groupSize == |group|
    ensures 0 < |data.userPreferences| <= data.groupSize
    ensures forall e :: e in data.userPreferences ==>
      exists m :: m in group && HasPreferences(users, prefs, m) && e == EntryOf(users, prefs, m)
    ensures forall m :: m in group && HasPreferences(users, prefs, m) ==> EntryOf(users, prefs, m) in data.userPreferences
  {
    var members :| Listing(members, group) && PreferenceEntries(members, users, prefs) != []
      && data == PromptData(destination, dateRange, |members|, PreferenceEntries(members, users, prefs));
    ListingSize(members, group);
    forall e | e in data.userPreferences
      ensures exists m :: m in group && HasPreferences(users, prefs, m) && e == EntryOf(users, prefs, m)
    {
      var i :| 0 <= i < |members| && HasPreferences(users, prefs, members[i]) && e == EntryOf(users, prefs, members[i]);
      assert members[i] in group;
    }
    forall m | m in group && HasPreferences(users, prefs, m)
      ensures EntryOf(users, prefs, m) in data.userPreferences
    {
      var i :| 0 <= i < |members| && members[i] == m;
    }
  }

  /** generateItinerary: group and destination are required and the group
      must exist; if no member has preferences the request fails before the
      generation service is called. Otherwise `request` is the data the
      prompt is composed from (ConstructItineraryPrompt turns it into the
      text sent); an answer that is missing or not JSON is a server error,
      and a JSON answer becomes a new draft itinerary. `formatDate` stands
      for the locale's date formatting; `answer` is what the generation
      service replied to the prompt, after JSON parsing (`None` when it gave
      no content or content that is not JSON). */
  method GenerateItinerary(
    db: Db, groupId: Option<Id>, destination: Option<string>, startDate: Option<string>, endDate: Option<string>,
    formatDate: string -> string, answer: Option<Json>)
    returns (status: int, request: Option<PromptData>, created: Option<Id>)
    requires db.Valid()
    modifies db`itineraries
    ensures db.Valid()
    ensures !TruthyString(groupId) || !TruthyString(destination) ==>
      status == StatusBadRequest && request == None && created == None && db.itineraries == old(db.itineraries)
    ensures TruthyString(groupId) && TruthyString(destination) && groupId.value !in old(db.groups) ==>
      status == StatusNotFound && request == None && created == None && db.itineraries == old(db.itineraries)
    ensures TruthyString(groupId) && TruthyString(destination) && groupId.value in old(db.groups)
            && !AnyPreferences(old(db.MembersOf(groupId.value)), old(db.users), old(db.preferences)) ==>
      status == StatusBadRequest && request == None && created == None && db.itineraries == old(db.itineraries)
    ensures TruthyString(groupId) && TruthyString(destination) && groupId.value in old(db.groups)
            && AnyPreferences(old(db.MembersOf(groupId.value)), old(db.users), old(db.preferences)) ==>
      request.Some?
    ensures request.Some? ==>
      && TruthyString(groupId) && TruthyString(destination)
      && RequestFor(old(db.MembersOf(groupId.value)), old(db.users), old(db.preferences),
                    destination.value, DateRange(startDate, endDate, formatDate), request.value)
    ensures request.Some? && answer.None? ==>
      status == StatusServerError && created == None && db.itineraries == old(db.itineraries)
    ensures request.Some? && answer.Some? ==>
      && status == StatusCreated && created.Some?
      && created.value !in old(db.itineraries)
      && db.itineraries == old(db.itineraries)[created.value :=
           Itinerary(groupId.value, destination.value + " Itinerary",
                     Some("AI-generated itinerary for " + destination.value), answer.value, false)]
  {
    if !TruthyString(groupId) || !TruthyString(destination) {
      return StatusBadRequest, None, None;
    }
    if groupId.value !in db.groups {
      return StatusNotFound, None, None;
    }
    var members := ListMembers(db.MembersOf(groupId.value));
    var userPreferences := PreferenceEntries(members, db.users, db.preferences);
    EntriesEmptyIff(members, db.MembersOf(groupId.value), db.users, db.preferences);
    if |userPreferences| == 0 {
      return StatusBadRequest, None, None;
    }
    var promptData := PromptData(destination.value, DateRange(startDate, endDate, formatDate),
                                 |members|, userPreferences);
    request := Some(promptData);
    if answer.None? {
      return StatusServerError, request, None;
    }
    var id := FreshId(db.Ids());
    db.itineraries := db.itineraries[id :=
      Itinerary(groupId.value, destination.value + " Itinerary",
                Some("AI-generated itinerary for " + destination.value), answer.value, false)];
    return StatusCreated, request, Some(id);
  }
}
