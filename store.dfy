/** The relational store the controllers talk to through the Prisma
    client, as one object whose tables are maps, a set and a sequence. */
module Store {
  import opened Common

  datatype User = User(name: string, email: string)

  /** Start and end dates are kept as the strings the request gave. */
  datatype Group = Group(
    name: string,
    description: Option<string>,
    destination: Option<string>,
    startDate: Option<string>,
    endDate: Option<string>,
    creatorId: Id)

  datatype Itinerary = Itinerary(
    groupId: Id,
    title: string,
    description: Option<string>,
    content: Json,
    isFinalized: bool)

  datatype Comment = Comment(itineraryId: Id, userId: Id, content: string)

  /** A user's travel preferences; `additionalNotes` may be null. */
  datatype Preferences = Preferences(
    travelStyle: seq<string>,
    budget: int,
    mustHaves: seq<string>,
    avoidList: seq<string>,
    foodPrefs: seq<string>,
    activityLevel: string,
    additionalNotes: Option<string>)

  /** No two users share an email (the unique email column). */
  ghost predicate UniqueEmails(users: map<Id, User>) {
    forall a, b :: a in users && b in users && users[a].email == users[b].email ==> a == b
  }

  /** Every group's creator is one of its members. */
  ghost predicate CreatorsAreMembers(groups: map<Id, Group>, memberships: set<(Id, Id)>) {
    forall g :: g in groups ==> (groups[g].creatorId, g) in memberships
  }

  /** Every stored preference record has an activity level. */
  ghost predicate LevelsSet(preferences: map<Id, Preferences>) {
    forall u :: u in preferences ==> preferences[u].activityLevel != ""
  }

  class Db {
    var users: map<Id, User>
    var groups: map<Id, Group>
    /** (userId, groupId) pairs; the pair is the table's unique key. */
    var memberships: set<(Id, Id)>
    var itineraries: map<Id, Itinerary>
    /** One value per (userId, itineraryId) pair. */
    var votes: map<(Id, Id), int>
    /** Comments in order of creation. */
    var comments: seq<Comment>
    /** At most one record per user, keyed by userId. */
    var preferences: map<Id, Preferences>

    /** What every handler keeps true: emails are unique, a group's creator
        is one of its members, and every stored preference record has an
        activity level. */
    ghost predicate Valid()
      reads this`users, this`groups, this`memberships, this`preferences
    {
      && UniqueEmails(users)
      && CreatorsAreMembers(groups, memberships)
      && LevelsSet(preferences)
    }

    constructor ()
      ensures Valid()
      ensures users == map[] && groups == map[] && memberships == {} && itineraries == map[]
      ensures votes == map[] && comments == [] && preferences == map[]
    {
      users, groups, memberships, itineraries := map[], map[], {}, map[];
      votes, comments, preferences := map[], [], map[];
    }

    /** Every id the store mentions, as a key or as a reference. */
    function Ids(): set<Id>
      reads this
    {
      users.Keys + groups.Keys + itineraries.Keys + preferences.Keys
      + (set m | m in memberships :: m.0) + (set m | m in memberships :: m.1)
      + (set v | v in votes :: v.0) + (set v | v in votes :: v.1)
      + (set c | c in comments :: c.userId) + (set c | c in comments :: c.itineraryId)
      + (set g | g in groups.Values :: g.creatorId) + (set i | i in itineraries.Values :: i.groupId)
    }

    /** An id the store does not mention is no table's key and is in no membership. */
    lemma Unmentioned(id: Id)
      requires id !in Ids()
      ensures id !in users && id !in groups && id !in itineraries && id !in preferences
      ensures forall m :: m in memberships ==> m.0 != id && m.1 != id
    {
      forall m | m in memberships ensures m.0 != id && m.1 != id {
        assert m.0 in (set m | m in memberships :: m.0);
        assert m.1 in (set m | m in memberships :: m.1);
      }
    }

    /** The ids of the users who belong to group `g`. */
    function MembersOf(g: Id): set<Id>
      reads this`memberships
    {
      Members(memberships, g)
    }

    /** Whether some user already has `email` (the lookup by the unique email column). */
    predicate EmailTaken(email: string)
      reads this`users
    {
      exists u :: u in users && users[u].email == email
    }
  }

  /** The users that the (userId, groupId) pairs `ms` put in group `g`. */
  function Members(ms: set<(Id, Id)>, g: Id): set<Id> {
    set m | m in ms && m.1 == g :: m.0
  }

  /** A group no pair mentions, given one pair, has exactly that one member. */
  lemma FirstMember(ms: set<(Id, Id)>, g: Id, u: Id)
    requires forall m :: m in ms ==> m.1 != g
    ensures Members(ms + {(u, g)}, g) == {u}
  {
    assert (u, g) in ms + {(u, g)};
  }

  /** The store's id generator: a non-empty id no row mentions yet. */
  method FreshId(used: set<Id>) returns (id: Id)
    ensures id !in used && id != ""
  {
    var longest: nat := 0;
    var rest := used;
    while rest != {}
      invariant rest <= used
      invariant forall k :: k in used && k !in rest ==> |k| <= longest
      decreases |rest|
    {
      var k :| k in rest;
      if |k| > longest {
        longest := |k|;
      }
      rest := rest - {k};
    }
    id := seq(longest + 1, _ => 'n');
  }
}
