/** The group handlers: create, update and delete groups, and add or
    remove members. The creator joins the group with it and can never be
    removed, so a group's creator is always one of its members. */
module GroupController {
  import opened Common
  import opened Store

  /** A date field of a new group: set only when the request gives a truthy one. */
  function DateField(x: Option<string>): (r: Option<string>)
    ensures r.Some? <==> TruthyString(x)
    ensures r.Some? ==> r == x
  {
    if TruthyString(x) then x else None
  }

  /** createGroup: name and creator are required, the creator must exist;
      the group is created with the creator as its only member. */
  method CreateGroup(
    db: Db, name: Option<string>, description: Option<string>, destination: Option<string>,
    startDate: Option<string>, endDate: Option<string>, creatorId: Option<Id>)
    returns (status: int, created: Option<Id>)
    requires db.Valid()
    modifies db`groups, db`memberships
    ensures db.Valid()
    ensures !TruthyString(name) || !TruthyString(creatorId) ==>
      && status == StatusBadRequest && created == None
      && db.groups == old(db.groups) && db.memberships == old(db.memberships)
    ensures TruthyString(name) && TruthyString(creatorId) && creatorId.value !in old(db.users) ==>
      && status == StatusNotFound && created == None
      && db.groups == old(db.groups) && db.memberships == old(db.memberships)
    ensures TruthyString(name) && TruthyString(creatorId) && creatorId.value in old(db.users) ==>
      && status == StatusCreated && created.Some?
      && created.value !in old(db.groups)
      && db.groups == old(db.groups)[created.value :=
           Group(name.value, description, destination, DateField(startDate), DateField(endDate), creatorId.value)]
      && db.memberships == old(db.memberships) + {(creatorId.value, created.value)}
      && db.MembersOf(created.value) == {creatorId.value}
      && (db.groups[created.value].startDate.Some? <==> TruthyString(startDate))
      && (db.groups[created.value].startDate.Some? ==> db.groups[created.value].startDate == startDate)
      && (db.groups[created.value].endDate.Some? <==> TruthyString(endDate))
      && (db.groups[created.value].endDate.Some? ==> db.groups[created.value].endDate == endDate)
  {
    if !TruthyString(name) || !TruthyString(creatorId) {
      return StatusBadRequest, None;
    }
    if creatorId.value !in db.users {
      return StatusNotFound, None;
    }
    var id := FreshId(db.Ids());
    db.Unmentioned(id);
    var group := Group(name.value, description, destination, DateField(startDate), DateField(endDate), creatorId.value);
    db.groups := db.groups[id := group];
    FirstMember(db.memberships, id, creatorId.value);
    db.memberships := db.memberships + {(creatorId.value, id)};
    return StatusCreated, Some(id);
  }

  /** updateGroup: name and dates are overwritten only by truthy values,
      description and destination whenever they are given. */
  method UpdateGroup(
    db: Db, id: Id, name: Option<string>, description: Option<string>, destination: Option<string>,
    startDate: Option<string>, endDate: Option<string>)
    returns (status: int)
    requires db.Valid()
    modifies db`groups
    ensures db.Valid()
    ensures id !in old(db.groups) ==> status == StatusNotFound && db.groups == old(db.groups)
    ensures id in old(db.groups) ==>
      && status == StatusOk
      && db.groups.Keys == old(db.groups.Keys)
      && (forall g :: g in old(db.groups) && g != id ==> db.groups[g] == old(db.groups[g]))
      && var before, after := old(db.groups[id]), db.groups[id];
      && after.creatorId == before.creatorId
      && after.name == (if TruthyString(name) then name.value else before.name)
      && after.description == (if description.Some? then description else before.description)
      && after.destination == (if destination.Some? then destination else before.destination)
      && after.startDate == (if TruthyString(startDate) then startDate else before.startDate)
      && after.endDate == (if TruthyString(endDate) then endDate else before.endDate)
  {
    if id !in db.groups {
      return StatusNotFound;
    }
    var group := db.groups[id];
    ghost var creator := group.creatorId;
    if TruthyString(name) {
      group := group.(name := name.value);
    }
    if description.Some? {
      group := group.(description := description);
    }
    if destination.Some? {
      group := group.(destination := destination);
    }
    if TruthyString(startDate) {
      group := group.(startDate := startDate);
    }
    if TruthyString(endDate) {
      group := group.(endDate := endDate);
    }
    assert group.creatorId == creator;
    db.groups := db.groups[id := group];
    return StatusOk;
  }

  /** deleteGroup: removes the group row; its memberships and itineraries are kept. */
  method DeleteGroup(db: Db, id: Id) returns (status: int)
    requires db.Valid()
    modifies db`groups
    ensures db.Valid()
    ensures id !in old(db.groups) ==> status == StatusNotFound && db.groups == old(db.groups)
    ensures id in old(db.groups) ==> status == StatusNoContent && db.groups == old(db.groups) - {id}
  {
    if id !in db.groups {
      return StatusNotFound;
    }
    db.groups := db.groups - {id};
    return StatusNoContent;
  }

  /** addGroupMember: the user id is required, group and user must exist,
      and a user already in the group is refused; otherwise exactly that
      one pair is added. */
  method AddGroupMember(db: Db, id: Id, userId: Option<Id>) returns (status: int)
    requires db.Valid()
    modifies db`memberships
    ensures db.Valid()
    ensures !TruthyString(userId) ==> status == StatusBadRequest && db.memberships == old(db.memberships)
    ensures TruthyString(userId) && id !in old(db.groups) ==>
      status == StatusNotFound && db.memberships == old(db.memberships)
    ensures TruthyString(userId) && id in old(db.groups) && userId.value !in old(db.users) ==>
      status == StatusNotFound && db.memberships == old(db.memberships)
    ensures TruthyString(userId) && id in old(db.groups) && userId.value in old(db.users)
            && (userId.value, id) in old(db.memberships) ==>
      status == StatusBadRequest && db.memberships == old(db.memberships)
    ensures TruthyString(userId) && id in old(db.groups) && userId.value in old(db.users)
            && (userId.value, id) !in old(db.memberships) ==>
      && status == StatusCreated
      && db.memberships == old(db.memberships) + {(userId.value, id)}
      && |db.memberships| == |old(db.memberships)| + 1
  {
    if !TruthyString(userId) {
      return StatusBadRequest;
    }
    if id !in db.groups {
      return StatusNotFound;
    }
    if userId.value !in db.users {
      return StatusNotFound;
    }
    if (userId.value, id) in db.memberships {
      return StatusBadRequest;
    }
    db.memberships := db.memberships + {(userId.value, id)};
    return StatusCreated;
  }

  /** removeGroupMember: a pair that is not a membership is not found
      (tested first); the group's creator is never removed; otherwise
      exactly that one pair goes. */
  method RemoveGroupMember(db: Db, id: Id, userId: Id) returns (status: int)
    requires db.Valid()
    modifies db`memberships
    ensures db.Valid()
    ensures (userId, id) !in old(db.memberships) ==>
      status == StatusNotFound && db.memberships == old(db.memberships)
    ensures (userId, id) in old(db.memberships) && id in old(db.groups) && old(db.groups[id].creatorId) == userId ==>
      status == StatusBadRequest && db.memberships == old(db.memberships)
    ensures (userId, id) in old(db.memberships) && !(id in old(db.groups) && old(db.groups[id].creatorId) == userId) ==>
      && status == StatusNoContent
      && db.memberships == old(db.memberships) - {(userId, id)}
      && |db.memberships| == |old(db.memberships)| - 1
  {
    if (userId, id) !in db.memberships {
      return StatusNotFound;
    }
    if id in db.groups && db.groups[id].creatorId == userId {
      return StatusBadRequest;
    }
    db.memberships := db.memberships - {(userId, id)};
    return StatusNoContent;
  }
}
