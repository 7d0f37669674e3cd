/**
 * The in-memory store of src/lib/db.ts: three module-level arrays of users, projects and
 * events, searched by id, updated in place and prepended to. Every call is one atomic step.
 */
module Db {
  import opened Wrappers
  import opened Types

  /** The message of the error `updateUser` throws for an unknown id. */
  const UserNotFound := "User not found"

  /** `const { password, ...rest } = user`: the record without its password key. */
  function WithoutPassword(u: User): (r: User)
    ensures r.password.None?
    ensures r.(password := u.password) == u
  {
    u.(password := None)
  }

  /**
   * `users.findIndex(u => u.id === id)` (and the position `find` stops at): the first index
   * holding `id`, or `None` when no user has it.
   */
  function IndexOfUser(users: seq<User>, id: string): (r: Option<nat>)
    ensures r.None? <==> forall i :: 0 <= i < |users| ==> users[i].id != id
    ensures r.Some? ==> r.value < |users| && users[r.value].id == id
    ensures r.Some? ==> forall j :: 0 <= j < r.value ==> users[j].id != id
  {
    if users == [] then None
    else if users[0].id == id then Some(0)
    else match IndexOfUser(users[1..], id)
      case None => None
      case Some(k) => Some(k + 1)
  }

  /**
   * What `getUserById` returns: nothing when no stored id matches, otherwise the first
   * matching user with the password removed.
   */
  function FindUser(users: seq<User>, id: string): (r: Option<User>)
    ensures r.None? <==> forall i :: 0 <= i < |users| ==> users[i].id != id
    ensures r.Some? ==> r.value.password.None? && r.value.id == id
    ensures r.Some? ==> exists i :: FirstWithId(users, id, i) && r.value == WithoutPassword(users[i])
  {
    match IndexOfUser(users, id)
    case None => None
    case Some(i) =>
      assert FirstWithId(users, id, i);
      Some(WithoutPassword(users[i]))
  }

  /** `i` is the first position of `users` holding `id`. */
  predicate FirstWithId(users: seq<User>, id: string, i: int)
  {
    && 0 <= i < |users|
    && users[i].id == id
    && forall j :: 0 <= j < i ==> users[j].id != id
  }

  /** `users.map(({ password, ...user }) => user)`: every user in order, none with a password. */
  function Redacted(users: seq<User>): (r: seq<User>)
    ensures |r| == |users|
    ensures forall i :: 0 <= i < |r| ==> r[i] == WithoutPassword(users[i]) && r[i].password.None?
  {
    if users == [] then [] else [WithoutPassword(users[0])] + Redacted(users[1..])
  }

  /**
   * `{ ...user, ...patch }`: a key present in the patch takes the patch's value, a key
   * absent from it (the password included) keeps the stored value.
   */
  function Merge(u: User, p: UserPatch): (r: User)
    ensures r.id == if p.id.Some? then p.id.value else u.id
    ensures r.name == if p.name.Some? then p.name.value else u.name
    ensures r.avatar == if p.avatar.Some? then p.avatar.value else u.avatar
    ensures r.aiHint == if p.aiHint.Some? then p.aiHint.value else u.aiHint
    ensures r.headline == if p.headline.Some? then p.headline.value else u.headline
    ensures r.email == if p.email.Some? then p.email.value else u.email
    ensures r.password == if p.password.Some? then p.password else u.password
    ensures r.skills == if p.skills.Some? then p.skills.value else u.skills
    ensures r.interests == if p.interests.Some? then p.interests.value else u.interests
    ensures r.availability == if p.availability.Some? then p.availability.value else u.availability
    ensures r.projects == if p.projects.Some? then p.projects.value else u.projects
  {
    User(
      p.id.GetOr(u.id),
      p.name.GetOr(u.name),
      p.avatar.GetOr(u.avatar),
      p.aiHint.GetOr(u.aiHint),
      p.headline.GetOr(u.headline),
      p.email.GetOr(u.email),
      if p.password.Some? then p.password else u.password,
      p.skills.GetOr(u.skills),
      p.interests.GetOr(u.interests),
      p.availability.GetOr(u.availability),
      p.projects.GetOr(u.projects))
  }

  /** The patch with no key at all. */
  const EmptyPatch := UserPatch(None, None, None, None, None, None, None, None, None, None, None)

  /** Merging the empty patch changes nothing. */
  lemma MergeEmptyPatch(u: User)
    ensures Merge(u, EmptyPatch) == u
  {
  }

  /** Merging the same patch twice is merging it once. */
  lemma MergeIdempotent(u: User, p: UserPatch)
    ensures Merge(Merge(u, p), p) == Merge(u, p)
  {
  }

  /**
   * After an update that leaves the id alone, looking the id up again finds the updated
   * record at the same position: `getUserById` agrees with what `updateUser` returned.
   */
  lemma {:induction false} FindAfterUpdate(users: seq<User>, id: string, p: UserPatch, i: nat)
    requires IndexOfUser(users, id) == Some(i)
    requires p.id.None? || p.id == Some(id)
    ensures IndexOfUser(users[i := Merge(users[i], p)], id) == Some(i)
    ensures FindUser(users[i := Merge(users[i], p)], id) == Some(WithoutPassword(Merge(users[i], p)))
  {
    var updated := users[i := Merge(users[i], p)];
    if i > 0 {
      assert users[1..][i - 1 := Merge(users[i], p)] == updated[1..];
      FindAfterUpdate(users[1..], id, p, i - 1);
    }
  }

  /** The store: the three arrays of src/lib/db.ts. */
  class Store {
    var users: seq<User>
    var projects: seq<Project>
    var events: seq<Event>

    /** A store holding the given seed records. */
    constructor (users0: seq<User>, projects0: seq<Project>, events0: seq<Event>)
      ensures users == users0 && projects == projects0 && events == events0
    {
      users := users0;
      projects := projects0;
      events := events0;
    }

    /** `getUsers`: one record per stored user, in store order, none carrying a password. */
    method GetUsers() returns (r: seq<User>)
      ensures |r| == |users|
      ensures forall i :: 0 <= i < |r| ==> r[i] == WithoutPassword(users[i]) && r[i].password.None?
    {
      r := Redacted(users);
    }

    /** `getUserById`: the first user holding `id`, without password, or nothing. */
    method GetUserById(id: string) returns (r: Option<User>)
      ensures r.None? <==> forall i :: 0 <= i < |users| ==> users[i].id != id
      ensures r.Some? ==> exists i :: FirstWithId(users, id, i) && r.value == WithoutPassword(users[i])
      ensures r == FindUser(users, id)
    {
      r := FindUser(users, id);
    }

    /** `getCurrentUser`: exactly `getUserById('1')`. */
    method GetCurrentUser() returns (r: Option<User>)
      ensures r == FindUser(users, "1")
    {
      r := GetUserById("1");
    }

    /**
     * `updateUser`: an unknown id fails with "User not found" and changes nothing; otherwise
     * the first user holding the id is replaced by the patch merged over it, nothing else in
     * the store changes, and the merged record is returned without its password.
     */
    method UpdateUser(id: string, patch: UserPatch) returns (r: Result<User, string>)
      modifies this
      ensures projects == old(projects) && events == old(events)
      ensures |users| == |old(users)|
      ensures IndexOfUser(old(users), id).None? ==> r == Failure(UserNotFound) && users == old(users)
      ensures IndexOfUser(old(users), id).Some? ==>
        var i := IndexOfUser(old(users), id).value;
        && users == old(users)[i := Merge(old(users)[i], patch)]
        && r == Success(WithoutPassword(users[i]))
        && r.value.password.None?
    {
      var index := IndexOfUser(users, id);
      if index.None? {
        return Failure(UserNotFound);
      }
      var i := index.value;
      users := users[i := Merge(users[i], patch)];
      r := Success(WithoutPassword(users[i]));
    }

    /** `getProjects`: the stored projects, newest first. */
    method GetProjects() returns (r: seq<Project>)
      ensures r == projects
    {
      r := projects;
    }

    /**
     * `createProject`: the project is put in front of the list (`unshift`) and returned
     * unchanged; users and events are untouched.
     */
    method CreateProject(project: Project) returns (r: Project)
      modifies this
      ensures projects == [project] + old(projects)
      ensures users == old(users) && events == old(events)
      ensures r == project
    {
      projects := [project] + projects;
      r := project;
    }

    /** `getEvents`: the stored events, newest first. */
    method GetEvents() returns (r: seq<Event>)
      ensures r == events
    {
      r := events;
    }

    /**
     * `createEvent`: the event is put in front of the list (`unshift`) and returned
     * unchanged; users and projects are untouched.
     */
    method CreateEvent(event: Event) returns (r: Event)
      modifies this
      ensures events == [event] + old(events)
      ensures users == old(users) && projects == old(projects)
      ensures r == event
    {
      events := [event] + events;
      r := event;
    }
  }
}
