/** Console users and their roles, and the guard that keeps a tenant from losing its last owner
    while updates run side by side under row locks. */
module Users {
  import opened Tables

  datatype Role = Viewer | Admin | Owner
  datatype Status = Invited | Active | Deactivated
  datatype RoleRow = RoleRow(id: Id, role: Role)

  datatype User = User(emailHash: string, status: Status, roles: seq<RoleRow>)

  /** An update can activate or deactivate, never invite. */
  type NewStatus = s: Status | s != Invited witness Deactivated

  datatype Update = Update(role: Option<Role>, status: Option<NewStatus>)

  datatype Outcome = Updated(role: Role, status: Status) | NotFound | LastOwner | Aborted

  type People = map<Id, User>

  // ---- roles -----------------------------------------------------------------------------------

  function Order(r: Role): nat { match r case Viewer => 1 case Admin => 2 case Owner => 3 }

  function Reduce(best: Role, rows: seq<RoleRow>): Role
    decreases |rows|
  {
    if rows == [] then best
    else Reduce(if Order(rows[0].role) > Order(best) then rows[0].role else best, rows[1..])
  }

  function Highest(rows: seq<RoleRow>): Option<Role> {
    if rows == [] then None else Some(Reduce(rows[0].role, rows[1..]))
  }

  function CurrentRole(u: User): Role { if Highest(u.roles).Some? then Highest(u.roles).value else Viewer }

  lemma {:induction false} ReduceIsMax(best: Role, rows: seq<RoleRow>)
    ensures Reduce(best, rows) == best || exists i :: 0 <= i < |rows| && rows[i].role == Reduce(best, rows)
    ensures Order(best) <= Order(Reduce(best, rows))
    ensures forall i :: 0 <= i < |rows| ==> Order(rows[i].role) <= Order(Reduce(best, rows))
    decreases |rows|
  {
    if rows != [] {
      var next := if Order(rows[0].role) > Order(best) then rows[0].role else best;
      ReduceIsMax(next, rows[1..]);
      if Reduce(best, rows) != next {
        var i :| 0 <= i < |rows[1..]| && rows[1..][i].role == Reduce(best, rows);
        assert rows[i + 1].role == Reduce(best, rows);
      }
    }
  }

  predicate HoldsOwner(u: User) { exists i :: 0 <= i < |u.roles| && u.roles[i].role == Owner }

  /** The fold finds the highest role held; a user without roles counts as a viewer. */
  lemma CurrentRoleIsHighest(u: User)
    ensures forall i :: 0 <= i < |u.roles| ==> Order(u.roles[i].role) <= Order(CurrentRole(u))
    ensures u.roles != [] ==> exists i :: 0 <= i < |u.roles| && u.roles[i].role == CurrentRole(u)
    ensures CurrentRole(u) == Owner <==> HoldsOwner(u)
  {
    if u.roles != [] {
      ReduceIsMax(u.roles[0].role, u.roles[1..]);
      var r := CurrentRole(u);
      if u.roles[0].role != r {
        var i :| 0 <= i < |u.roles[1..]| && u.roles[1..][i].role == r;
        assert u.roles[i + 1].role == r;
      }
    }
  }

  predicate ActiveOwner(u: User) { u.status == Status.Active && HoldsOwner(u) }

  predicate IsActiveOwner(people: People, id: Id) { id in people && ActiveOwner(people[id]) }

  ghost predicate HasOwner(people: People) { exists id :: IsActiveOwner(people, id) }

  // ---- one update --------------------------------------------------------------------------------

  /** Whether the update would take an owner away. */
  predicate Removing(current: Role, input: Update) {
    current == Owner && ((input.role.Some? && input.role.value != Owner) || (input.status.Some? && input.status.value == Deactivated))
  }

  function Changed(u: User, input: Update, newRow: Id): User {
    var roles := if input.role.Some? && input.role.value != CurrentRole(u) then [RoleRow(newRow, input.role.value)] else u.roles;
    User(u.emailHash, if input.status.Some? then input.status.value else u.status, roles)
  }

  function After(u: User, input: Update): Outcome {
    Updated(if input.role.Some? then input.role.value else CurrentRole(u), if input.status.Some? then input.status.value else u.status)
  }

  ghost predicate OtherOwner(people: People, id: Id) { exists o :: o != id && IsActiveOwner(people, o) }

  /** `updateUser` with nobody else at work. */
  ghost function AfterUpdate(people: People, id: Id, input: Update, newRow: Id): (People, Outcome) {
    if id !in people then (people, NotFound)
    else if Removing(CurrentRole(people[id]), input) && !OtherOwner(people, id) then (people, LastOwner)
    else (people[id := Changed(people[id], input, newRow)], After(people[id], input))
  }

  /** The outcome reports the new state, and only an update that takes ownership away removes an owner. */
  lemma ChangedIsReported(u: User, input: Update, newRow: Id)
    ensures After(u, input) == Updated(CurrentRole(Changed(u, input, newRow)), Changed(u, input, newRow).status)
    ensures ActiveOwner(u) && !ActiveOwner(Changed(u, input, newRow)) ==>
              Removing(CurrentRole(u), input)
  {
    CurrentRoleIsHighest(u);
    CurrentRoleIsHighest(Changed(u, input, newRow));
  }

  /** The user has an owner row, and the update would give another role or deactivate. */
  predicate TakesOwnership(u: User, input: Update) {
    && (exists i :: 0 <= i < |u.roles| && u.roles[i].role == Owner)
    && ((input.role.Some? && input.role.value != Owner) || input.status == Some(Status.Deactivated))
  }

  /** Nobody but this user is active and has an owner row. */
  ghost predicate OnlyOwner(people: People, id: Id) {
    forall o :: o in people && o != id && people[o].status == Status.Active ==>
      forall i :: 0 <= i < |people[o].roles| ==> people[o].roles[i].role != Owner
  }

  predicate Holds(u: User, r: Role) { exists i :: 0 <= i < |u.roles| && u.roles[i].role == r }

  /** The role a user acts in: the highest it holds, viewer if none. */
  predicate ActsAs(u: User, r: Role) {
    match r
    case Owner => Holds(u, Owner)
    case Admin => Holds(u, Admin) && !Holds(u, Owner)
    case Viewer => !Holds(u, Admin) && !Holds(u, Owner)
  }

  lemma ActsAsIff(u: User, r: Role)
    ensures ActsAs(u, r) <==> CurrentRole(u) == r
  {
    CurrentRoleIsHighest(u);
    if u.roles != [] { var i :| 0 <= i < |u.roles| && u.roles[i].role == CurrentRole(u); }
  }

  /** An update is refused exactly when it takes ownership from an owner and nobody else is one. Otherwise it sets
      the status that was asked for, and replaces the roles by the one asked for unless the user acts in it already;
      the answer is what the user is then. */
  lemma UpdateOutcome(people: People, id: Id, input: Update, newRow: Id)
    ensures var (people', outcome) := AfterUpdate(people, id, input, newRow);
            && (outcome == NotFound <==> id !in people)
            && (outcome == LastOwner <==> id in people && TakesOwnership(people[id], input) && OnlyOwner(people, id))
            && (if outcome.Updated? then
                  && id in people
                  && var u := people[id];
                     && people' == people[id := User(u.emailHash, if input.status.Some? then input.status.value else u.status,
                          if input.role.Some? && !ActsAs(u, input.role.value) then [RoleRow(newRow, input.role.value)] else u.roles)]
                     && outcome.status == people'[id].status && ActsAs(people'[id], outcome.role)
                else people' == people && (outcome == NotFound || outcome == LastOwner))
  {
    if id in people {
      var u := people[id];
      ActsAsIff(u, CurrentRole(u));
      if input.role.Some? { ActsAsIff(u, input.role.value); }
      ChangedIsReported(u, input, newRow);
      ActsAsIff(Changed(u, input, newRow), CurrentRole(Changed(u, input, newRow)));
      OnlyOwnerIff(people, id);
    }
  }

  lemma OnlyOwnerIff(people: People, id: Id)
    ensures OnlyOwner(people, id) <==> !OtherOwner(people, id)
  {
    if !OnlyOwner(people, id) {
      var o :| o in people && o != id && people[o].status == Status.Active && HoldsOwner(people[o]);
      assert IsActiveOwner(people, o);
    }
  }

  predicate Taken(people: People, emailHash: string) { exists id :: id in people && people[id].emailHash == emailHash }

  /** A new user with one role; none when the address is taken. */
  function WithUser(people: People, id: Id, emailHash: string, role: Role, password: bool, row: Id): People
    requires id !in people
  {
    if Taken(people, emailHash) then people
    else people[id := User(emailHash, if password then Status.Active else Invited, [RoleRow(row, role)])]
  }

  // ---- the tables, updated in place ---------------------------------------------------------------

  class UserStore {
    var people: People

    constructor (people: People)
      ensures this.people == people
    {
      this.people := people;
    }

    method CreateUser(id: Id, emailHash: string, role: Role, password: bool, row: Id) returns (ok: bool)
      requires id !in people
      modifies this
      ensures people == WithUser(old(people), id, emailHash, role, password, row)
      ensures ok <==> forall u :: u in old(people) ==> old(people)[u].emailHash != emailHash
      ensures ok ==> people == old(people)[id := User(emailHash, if password then Status.Active else Invited, [RoleRow(row, role)])]
      ensures !ok ==> people == old(people)
    {
      if Taken(people, emailHash) { return false; }
      people := people[id := User(emailHash, if password then Status.Active else Invited, [])];
      people := people[id := people[id].(roles := people[id].roles + [RoleRow(row, role)])];
      assert [] + [RoleRow(row, role)] == [RoleRow(row, role)];
      ok := true;
    }

    /** A tenant's first administrator is an active owner. */
    method ProvisionFirstAdmin(id: Id, reference: string, row: Id) returns (ok: bool)
      requires id !in people
      modifies this
      ensures people == WithUser(old(people), id, reference, Owner, true, row)
      ensures ok <==> forall u :: u in old(people) ==> old(people)[u].emailHash != reference
      ensures ok ==> people == old(people)[id := User(reference, Status.Active, [RoleRow(row, Owner)])] && IsActiveOwner(people, id)
      ensures !ok ==> people == old(people)
    {
      if Taken(people, reference) { return false; }
      people := people[id := User(reference, Status.Active, [])];
      people := people[id := people[id].(roles := people[id].roles + [RoleRow(row, Owner)])];
      assert [] + [RoleRow(row, Owner)] == [RoleRow(row, Owner)];
      assert people[id].roles[0].role == Owner;
      ok := true;
    }

    method UpdateUser(id: Id, input: Update, newRow: Id) returns (outcome: Outcome)
      modifies this
      ensures (people, outcome) == AfterUpdate(old(people), id, input, newRow)
    {
      if id !in people { return NotFound; }
      var current, status := CurrentRole(people[id]), people[id].status;
      if Removing(current, input) {
        var otherActiveOwners := (set o | o in people && IsActiveOwner(people, o)) - {id};
        if otherActiveOwners == {} {
          assert forall o :: o != id && IsActiveOwner(people, o) ==> o in otherActiveOwners;
          return LastOwner;
        }
        var o :| o in otherActiveOwners;
        assert IsActiveOwner(people, o);
      }
      if input.role.Some? && input.role.value != current {
        people := people[id := people[id].(roles := [])];
        people := people[id := people[id].(roles := people[id].roles + [RoleRow(newRow, input.role.value)])];
        assert [] + [RoleRow(newRow, input.role.value)] == [RoleRow(newRow, input.role.value)];
      }
      if input.status.Some? && input.status.value != status {
        people := people[id := people[id].(status := input.status.value)];
      }
      assert people == old(people)[id := Changed(old(people)[id], input, newRow)];
      outcome := Updated(if input.role.Some? then input.role.value else current, if input.status.Some? then input.status.value else status);
    }
  }
}
