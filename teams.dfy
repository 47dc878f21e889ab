/** routes/teams.js: teams with admin and member roles, the users' lists of
    their teams, the admin-gated routes that change both, and the
    `/team-expenses` listing. */
module Teams {
  import opened Js
  import opened Http
  import opened Seqs
  import opened Format
  import opened Collections

  datatype Role = Admin | Member

  /** One entry of a team's `members`. */
  datatype Membership = Membership(user: Id, role: Role)

  datatype Team = Team(
    name: Value,
    description: Value,
    createdBy: Id,
    members: seq<Membership>,
    budget: Value)

  /** The part of a user document the routes touch. */
  datatype User = User(email: string, teams: seq<Id>)

  // ---------------------------------------------------------------------
  // The members list.

  /** Whether some entry of the members list gives the caller the admin role. */
  predicate IsAdmin(members: seq<Membership>, caller: Id)
  {
    members != [] && ((members[0].user == caller && members[0].role == Admin) || IsAdmin(members[1..], caller))
  }

  /** Whether some entry of the members list names the user. */
  predicate HasMember(members: seq<Membership>, user: Id)
  {
    members != [] && (members[0].user == user || HasMember(members[1..], user))
  }

  /** The ids of the stored teams that name the user among their members. */
  ghost function TeamIdsNaming(records: map<Id, Team>, user: Id): set<Id>
  {
    set id | id in records && HasMember(records[id].members, user)
  }

  /** Whether a team names the user among its members. */
  function Names(user: Id): Team -> bool
  {
    (t: Team) => HasMember(t.members, user)
  }

  /** The teams of a collection that name the user are one per stored id. */
  lemma NamingCount(c: Collection<Team>, user: Id)
    requires c.Valid()
    ensures |Filter(c.All(), Names(user))| == |TeamIdsNaming(c.records, user)|
  {
    var ids := PassingIds(c.order, c.records, Names(user));
    c.FilterCount(Names(user));
    DistinctCover(ids, TeamIdsNaming(c.records, user));
  }

  /** The caller is admin exactly when some entry names the caller with the
      admin role. */
  lemma {:induction false} IsAdminIff(members: seq<Membership>, caller: Id)
    ensures IsAdmin(members, caller) <==>
      exists i :: 0 <= i < |members| && members[i] == Membership(caller, Admin)
  {
    if members != [] {
      IsAdminIff(members[1..], caller);
      if IsAdmin(members[1..], caller) {
        var i :| 0 <= i < |members[1..]| && members[1..][i] == Membership(caller, Admin);
        assert members[i + 1] == Membership(caller, Admin);
      }
      if exists i :: 0 <= i < |members| && members[i] == Membership(caller, Admin) {
        var i :| 0 <= i < |members| && members[i] == Membership(caller, Admin);
        if i > 0 {
          assert members[1..][i - 1] == Membership(caller, Admin);
        }
      }
    }
  }

  /** A user is a member exactly when some entry names that user. */
  lemma {:induction false} HasMemberIff(members: seq<Membership>, user: Id)
    ensures HasMember(members, user) <==> exists i :: 0 <= i < |members| && members[i].user == user
  {
    if members != [] {
      HasMemberIff(members[1..], user);
      if HasMember(members[1..], user) {
        var i :| 0 <= i < |members[1..]| && members[1..][i].user == user;
        assert members[i + 1].user == user;
      }
      if exists i :: 0 <= i < |members| && members[i].user == user {
        var i :| 0 <= i < |members| && members[i].user == user;
        if i > 0 {
          assert members[1..][i - 1].user == user;
        }
      }
    }
  }

  /** No user holds two entries. */
  predicate UniqueMembers(members: seq<Membership>)
  {
    forall i, j :: 0 <= i < j < |members| ==> members[i].user != members[j].user
  }

  /** A user who is not a member is not an admin. */
  lemma {:induction false} NonMemberIsNotAdmin(members: seq<Membership>, user: Id)
    requires !HasMember(members, user)
    ensures !IsAdmin(members, user)
  {
    if members != [] {
      NonMemberIsNotAdmin(members[1..], user);
    }
  }

  /** With one entry per user, a user whose entry has the member role is not
      an admin. */
  lemma PlainMemberIsNotAdmin(members: seq<Membership>, user: Id, i: nat)
    requires UniqueMembers(members)
    requires i < |members| && members[i] == Membership(user, Member)
    ensures !IsAdmin(members, user)
  {
    forall j | 0 <= j < |members| ensures members[j] != Membership(user, Admin) {
      if j < i {
        assert members[j].user != members[i].user;
      } else if j > i {
        assert members[i].user != members[j].user;
      }
    }
    IsAdminIff(members, user);
  }

  /** `team.members.push({ user, role: 'member' })`. */
  function AddMembership(members: seq<Membership>, user: Id): (r: seq<Membership>)
    ensures |r| == |members| + 1 && r[..|members|] == members && r[|members|] == Membership(user, Member)
  {
    members + [Membership(user, Member)]
  }

  /** Adding a member never makes anyone admin or takes the role away. */
  lemma {:induction false} AddMembershipKeepsAdmins(members: seq<Membership>, user: Id, caller: Id)
    ensures IsAdmin(AddMembership(members, user), caller) <==> IsAdmin(members, caller)
  {
    IsAdminIff(members, caller);
    IsAdminIff(AddMembership(members, user), caller);
    var r := AddMembership(members, user);
    if exists i :: 0 <= i < |r| && r[i] == Membership(caller, Admin) {
      var i :| 0 <= i < |r| && r[i] == Membership(caller, Admin);
      assert i < |members| && members[i] == r[i];
    }
  }

  /** Adding a user who is not yet a member keeps the entries unique, and
      makes that user a member. */
  lemma {:induction false} AddMembershipKeepsUnique(members: seq<Membership>, user: Id)
    requires UniqueMembers(members) && !HasMember(members, user)
    ensures UniqueMembers(AddMembership(members, user))
    ensures HasMember(AddMembership(members, user), user)
  {
    HasMemberIff(members, user);
    var r := AddMembership(members, user);
    HasMemberIff(r, user);
    assert r[|members|].user == user;
  }

  /** The members list without any entry that names the user. */
  function RemoveMembership(members: seq<Membership>, user: Id): (r: seq<Membership>)
    ensures |r| <= |members|
  {
    Filter(members, (m: Membership) => m.user != user)
  }

  /** After removal the user holds no entry, and every other user keeps
      its membership and its admin role. */
  lemma RemoveMembershipEffect(members: seq<Membership>, user: Id, other: Id)
    requires other != user
    ensures !HasMember(RemoveMembership(members, user), user)
    ensures HasMember(RemoveMembership(members, user), other) <==> HasMember(members, other)
    ensures IsAdmin(RemoveMembership(members, user), other) <==> IsAdmin(members, other)
  {
    var r := RemoveMembership(members, user);
    HasMemberIff(r, user);
    HasMemberIff(r, other);
    HasMemberIff(members, other);
    IsAdminIff(r, other);
    IsAdminIff(members, other);
    if HasMember(members, other) {
      var j :| 0 <= j < |members| && members[j].user == other;
      assert members[j] in r;
    }
    if IsAdmin(members, other) {
      var j :| 0 <= j < |members| && members[j] == Membership(other, Admin);
      assert members[j] in r;
    }
  }

  /** Removal keeps the entries unique. */
  lemma {:induction false} RemoveMembershipKeepsUnique(members: seq<Membership>, user: Id)
    requires UniqueMembers(members)
    ensures UniqueMembers(RemoveMembership(members, user))
  {
    if members != [] {
      var m := members[0];
      var tail := members[1..];
      assert UniqueMembers(tail);
      RemoveMembershipKeepsUnique(tail, user);
      var rest := RemoveMembership(tail, user);
      assert members == [m] + tail;
      var r := RemoveMembership(members, user);
      assert r == (if m.user != user then [m] else []) + rest;
      forall x | x in rest ensures x.user != m.user {
        var k :| 0 <= k < |tail| && tail[k] == x;
        assert members[k + 1] == x;
      }
      if m.user != user {
        UniqueCons(m, rest);
      }
    }
  }

  lemma UniqueCons(m: Membership, rest: seq<Membership>)
    requires UniqueMembers(rest) && forall x :: x in rest ==> x.user != m.user
    ensures UniqueMembers([m] + rest)
  {
    var r := [m] + rest;
    forall i, j | 0 <= i < j < |r| ensures r[i].user != r[j].user {
      assert r[j] == rest[j - 1];
      if i > 0 {
        assert r[i] == rest[i - 1];
      }
    }
  }

  /** The entries that remain keep their order: removal distributes over
      concatenation, and one entry is kept exactly when it names another user. */
  lemma RemoveMembershipKeepsOrder(a: seq<Membership>, b: seq<Membership>, user: Id, m: Membership)
    ensures RemoveMembership(a + b, user) == RemoveMembership(a, user) + RemoveMembership(b, user)
    ensures RemoveMembership([m], user) == if m.user == user then [] else [m]
  {
    FilterConcat(a, b, (m: Membership) => m.user != user);
  }

  /** Removing a user who is not a member changes nothing. */
  lemma RemoveNonMemberIsIdentity(members: seq<Membership>, user: Id)
    requires !HasMember(members, user)
    ensures RemoveMembership(members, user) == members
  {
    HasMemberIff(members, user);
    FilterKeepsAll(members, (m: Membership) => m.user != user);
  }

  // ---------------------------------------------------------------------
  // The users' `teams` arrays.

  /** `$push: { teams: teamId }` on the user `u`; no user, no change. */
  function PushTeam(users: map<Id, User>, u: Id, teamId: Id): (r: map<Id, User>)
    ensures r.Keys == users.Keys
    ensures u in users ==> r[u] == users[u].(teams := users[u].teams + [teamId])
    ensures forall v :: v in users && v != u ==> r[v] == users[v]
  {
    if u in users then users[u := users[u].(teams := users[u].teams + [teamId])] else users
  }

  /** `$pull: { teams: teamId }`: every occurrence goes, the rest keep their order. */
  function Pull(ids: seq<Id>, teamId: Id): (r: seq<Id>)
    ensures teamId !in r
    ensures forall x :: x != teamId ==> (x in r <==> x in ids)
  {
    var r := Filter(ids, (x: Id) => x != teamId);
    assert forall x :: x in ids && x != teamId ==> x in r by {
      forall x | x in ids && x != teamId ensures x in r {
        var i :| 0 <= i < |ids| && ids[i] == x;
      }
    }
    r
  }

  /** `$pull` on the user `u`; no user, no change. */
  function PullTeam(users: map<Id, User>, u: Id, teamId: Id): (r: map<Id, User>)
    ensures r.Keys == users.Keys
    ensures u in users ==> r[u] == users[u].(teams := Pull(users[u].teams, teamId))
    ensures forall v :: v in users && v != u ==> r[v] == users[v]
  {
    if u in users then users[u := users[u].(teams := Pull(users[u].teams, teamId))] else users
  }

  // ---------------------------------------------------------------------
  // Create and update.

  const NameRequired := "Name is required"
  const EmailInvalid := "Please include a valid email"

  /** The team `POST /` saves: the caller as its creator and only member,
      with the admin role; `budget` is `body.budget || 0`. */
  function NewTeam(body: Doc, caller: Id): (t: Team)
    ensures t.members == [Membership(caller, Admin)]
    ensures IsAdmin(t.members, caller) && UniqueMembers(t.members)
    ensures forall u :: u != caller ==> !HasMember(t.members, u)
    ensures t.createdBy == caller
    ensures t.name == Get(body, "name") && t.description == Get(body, "description")
    ensures Truthy(Get(body, "budget")) ==> t.budget == Get(body, "budget")
    ensures !Truthy(Get(body, "budget")) ==> t.budget == Num(0.0)
  {
    Team(
      name := Get(body, "name"),
      description := Get(body, "description"),
      createdBy := caller,
      members := [Membership(caller, Admin)],
      budget := Or(Get(body, "budget"), Num(0.0)))
  }

  /** The fields a `PUT /:id` body sets, already cast by the team model. */
  datatype TeamPatch = TeamPatch(
    name: Option<Value>,
    description: Option<Value>,
    createdBy: Option<Id>,
    members: Option<seq<Membership>>,
    budget: Option<Value>)

  /** `$set` of the patch: a field the patch gives is replaced, any other kept. */
  function ApplyPatch(t: Team, p: TeamPatch): Team
  {
    Team(
      name := if p.name.Some? then p.name.value else t.name,
      description := if p.description.Some? then p.description.value else t.description,
      createdBy := if p.createdBy.Some? then p.createdBy.value else t.createdBy,
      members := if p.members.Some? then p.members.value else t.members,
      budget := if p.budget.Some? then p.budget.value else t.budget)
  }

  /** Two patches in a row: each field from the later one when it gives it,
      else from the earlier one. */
  function ThenPatch(p: TeamPatch, q: TeamPatch): TeamPatch
  {
    TeamPatch(
      name := if q.name.Some? then q.name else p.name,
      description := if q.description.Some? then q.description else p.description,
      createdBy := if q.createdBy.Some? then q.createdBy else p.createdBy,
      members := if q.members.Some? then q.members else p.members,
      budget := if q.budget.Some? then q.budget else p.budget)
  }

  /** A patch is applied by field: an empty patch changes nothing, the patch
      applied twice is the patch applied once, two patches in a row are their
      field-wise combination with the later one winning, and a patch that
      gives every field yields the same team from any team. */
  lemma PatchLaws(t: Team, t': Team, p: TeamPatch, q: TeamPatch)
    ensures ApplyPatch(t, TeamPatch(None, None, None, None, None)) == t
    ensures ApplyPatch(ApplyPatch(t, p), p) == ApplyPatch(t, p)
    ensures ApplyPatch(ApplyPatch(t, p), q) == ApplyPatch(t, ThenPatch(p, q))
    ensures (&& p.name.Some? && p.description.Some? && p.createdBy.Some?
             && p.members.Some? && p.budget.Some?) ==>
      ApplyPatch(t, p) == ApplyPatch(t', p)
  {
  }

  /** The update writes `members` as given: unlike adding a member, it can
      give one user two entries. */
  lemma UpdateMayDuplicateMembers(t: Team, caller: Id)
    ensures var p := TeamPatch(None, None, None, Some([Membership(caller, Admin), Membership(caller, Member)]), None);
      !UniqueMembers(ApplyPatch(t, p).members)
  {
    var p := TeamPatch(None, None, None, Some([Membership(caller, Admin), Membership(caller, Member)]), None);
    assert ApplyPatch(t, p).members[0].user == ApplyPatch(t, p).members[1].user;
  }

  // ---------------------------------------------------------------------
  // The two collections and the routes that change them.

  class Directory {
    const teams: Collection<Team>
    var users: map<Id, User>

    ghost predicate Valid()
      reads this, teams
    {
      teams.Valid()
    }

    /** Every stored team gives each user at most one entry. */
    ghost predicate MembersUnique()
      reads this, teams
    {
      forall id :: id in teams.records ==> UniqueMembers(teams.records[id].members)
    }

    constructor ()
      ensures Valid() && fresh(teams)
      ensures teams.records == map[] && teams.order == [] && users == map[]
    {
      teams := new Collection<Team>();
      users := map[];
    }

    /** `GET /`: the teams that list the caller among their members, in
        natural order. */
    function TeamsOf(caller: Id): (r: seq<Team>)
      reads this, teams
      requires Valid()
      ensures forall i :: 0 <= i < |r| ==> HasMember(r[i].members, caller) && r[i] in teams.records.Values
      ensures forall id :: id in teams.records && HasMember(teams.records[id].members, caller) ==>
        teams.records[id] in r
      ensures |r| == |TeamIdsNaming(teams.records, caller)|
    {
      var all := teams.All();
      teams.AllIsTheRecords();
      NamingCount(teams, caller);
      Filter(all, Names(caller))
    }

    /** `POST /`: 400 without a name; otherwise the new team is stored and its
        id pushed onto the caller's `teams`. */
    method CreateTeam(caller: Id, body: Doc, newId: Id) returns (r: Reply<Team>)
      requires Valid() && newId !in teams.records
      modifies this, teams
      ensures Valid()
      ensures IsEmptyValue(Get(body, "name")) ==>
        r == Fail(BAD_REQUEST, [NameRequired]) && unchanged(this, teams)
      ensures !IsEmptyValue(Get(body, "name")) ==>
        && teams.records == old(teams.records)[newId := NewTeam(body, caller)]
        && teams.order == old(teams.order) + [newId]
        && users == PushTeam(old(users), caller, newId)
        && r == Ok(OK, NewTeam(body, caller))
      ensures old(MembersUnique()) ==> MembersUnique()
    {
      if IsEmptyValue(Get(body, "name")) {
        return Fail(BAD_REQUEST, [NameRequired]);
      }
      var team := NewTeam(body, caller);
      teams.Insert(newId, team);
      users := PushTeam(users, caller, newId);
      r := Ok(OK, team);
    }

    /** `PUT /:id`: 404 for a missing team, then 401 for a caller who is not
        its admin; otherwise the patch is applied. No user changes. */
    method UpdateTeam(caller: Id, teamId: Id, patch: TeamPatch) returns (r: Reply<Team>)
      requires Valid()
      modifies teams
      ensures Valid()
      ensures teamId !in old(teams.records) ==> r == Fail(NOT_FOUND, []) && unchanged(teams)
      ensures teamId in old(teams.records) && !IsAdmin(old(teams.records)[teamId].members, caller) ==>
        r == Fail(UNAUTHORIZED, []) && unchanged(teams)
      ensures teamId in old(teams.records) && IsAdmin(old(teams.records)[teamId].members, caller) ==>
        && teams.records == old(teams.records)[teamId := ApplyPatch(old(teams.records)[teamId], patch)]
        && teams.order == old(teams.order)
        && r == Ok(OK, teams.records[teamId])
    {
      if teamId !in teams.records {
        return Fail(NOT_FOUND, []);
      }
      var team := teams.records[teamId];
      if !IsAdmin(team.members, caller) {
        return Fail(UNAUTHORIZED, []);
      }
      var updated := ApplyPatch(team, patch);
      teams.Replace(teamId, updated);
      r := Ok(OK, updated);
    }

    /** `POST /:id/members`: 400 for an invalid email, 404 for a missing
        team, 401 for a caller who is not its admin, 404 when no user has the
        email, 400 when that user is already a member; otherwise the user is
        appended as a plain member and the team id pushed onto the user's
        `teams`. `emailOk` is the verdict of the email check. */
    method AddMember(caller: Id, teamId: Id, email: string, emailOk: bool) returns (r: Reply<Team>)
      requires Valid()
      modifies this, teams
      ensures Valid()
      ensures r.Fail? ==> unchanged(this, teams)
      ensures !emailOk ==> r == Fail(BAD_REQUEST, [EmailInvalid])
      ensures emailOk && teamId !in old(teams.records) ==> r == Fail(NOT_FOUND, [])
      ensures (&& emailOk && teamId in old(teams.records)
               && !IsAdmin(old(teams.records)[teamId].members, caller)) ==>
        r == Fail(UNAUTHORIZED, [])
      ensures (&& emailOk && teamId in old(teams.records)
               && IsAdmin(old(teams.records)[teamId].members, caller)
               && (forall u :: u in old(users) ==> old(users)[u].email != email)) ==>
        r == Fail(NOT_FOUND, [])
      ensures r == Fail(BAD_REQUEST, []) ==>
        exists u :: u in old(users) && old(users)[u].email == email
          && HasMember(old(teams.records)[teamId].members, u)
      ensures (&& emailOk && teamId in old(teams.records)
               && IsAdmin(old(teams.records)[teamId].members, caller)
               && (exists u :: u in old(users) && old(users)[u].email == email)) ==>
        && (r.Ok? || r == Fail(BAD_REQUEST, []))
        && ((forall u :: u in old(users) && old(users)[u].email == email ==>
               !HasMember(old(teams.records)[teamId].members, u)) ==> r.Ok?)
        && ((forall u :: u in old(users) && old(users)[u].email == email ==>
               HasMember(old(teams.records)[teamId].members, u)) ==> r == Fail(BAD_REQUEST, []))
      ensures r.Ok? ==>
        && emailOk && teamId in old(teams.records)
        && IsAdmin(old(teams.records)[teamId].members, caller)
        && teams.order == old(teams.order)
        && exists u :: (
          && u in old(users) && old(users)[u].email == email
          && !HasMember(old(teams.records)[teamId].members, u)
          && teams.records == old(teams.records)[teamId :=
               old(teams.records)[teamId].(members := AddMembership(old(teams.records)[teamId].members, u))]
          && users == PushTeam(old(users), u, teamId)
          && r == Ok(OK, teams.records[teamId]))
      ensures old(MembersUnique()) ==> MembersUnique()
    {
      if !emailOk {
        return Fail(BAD_REQUEST, [EmailInvalid]);
      }
      if teamId !in teams.records {
        return Fail(NOT_FOUND, []);
      }
      var team := teams.records[teamId];
      if !IsAdmin(team.members, caller) {
        return Fail(UNAUTHORIZED, []);
      }
      if forall u :: u in users ==> users[u].email != email {
        return Fail(NOT_FOUND, []);
      }
      var u :| u in users && users[u].email == email;
      if HasMember(team.members, u) {
        return Fail(BAD_REQUEST, []);
      }
      if MembersUnique() {
        AddMembershipKeepsUnique(team.members, u);
      }
      var updated := team.(members := AddMembership(team.members, u));
      teams.Replace(teamId, updated);
      users := PushTeam(users, u, teamId);
      r := Ok(OK, updated);
    }

    /** `DELETE /:id/members/:userId`: 404 for a missing team, then 401 for a
        caller who is not its admin; otherwise every entry of the user is
        removed and the team id pulled from the user's `teams`, whether or
        not the user was a member. */
    method RemoveMember(caller: Id, teamId: Id, userId: Id) returns (r: Reply<Team>)
      requires Valid()
      modifies this, teams
      ensures Valid()
      ensures teamId !in old(teams.records) ==> r == Fail(NOT_FOUND, []) && unchanged(this, teams)
      ensures teamId in old(teams.records) && !IsAdmin(old(teams.records)[teamId].members, caller) ==>
        r == Fail(UNAUTHORIZED, []) && unchanged(this, teams)
      ensures teamId in old(teams.records) && IsAdmin(old(teams.records)[teamId].members, caller) ==>
        && teams.records == old(teams.records)[teamId :=
             old(teams.records)[teamId].(members := RemoveMembership(old(teams.records)[teamId].members, userId))]
        && teams.order == old(teams.order)
        && users == PullTeam(old(users), userId, teamId)
        && r == Ok(OK, teams.records[teamId])
      ensures old(MembersUnique()) ==> MembersUnique()
    {
      if teamId !in teams.records {
        return Fail(NOT_FOUND, []);
      }
      var team := teams.records[teamId];
      if !IsAdmin(team.members, caller) {
        return Fail(UNAUTHORIZED, []);
      }
      if MembersUnique() {
        RemoveMembershipKeepsUnique(team.members, userId);
      }
      var updated := team.(members := RemoveMembership(team.members, userId));
      teams.Replace(teamId, updated);
      users := PullTeam(users, userId, teamId);
      r := Ok(OK, updated);
    }
  }

  // ---------------------------------------------------------------------
  // GET /team-expenses

  /** One row of the `/team-expenses` listing. */
  datatype Row = Row(
    id: Value,
    description: Value,
    amount: Value,
    date: Value,
    category: Value,
    notes: Value,
    teamId: Value,
    userId: Value)

  /** `v` is `stored || fallback`. */
  ghost predicate OrElse(v: Value, stored: Value, fallback: Value)
  {
    (Truthy(stored) ==> v == stored) && (!Truthy(stored) ==> v == fallback)
  }

  /** The row for one stored record; `now` is `new Date()`. Only the
      lowercase keys are read. */
  function MapTeamExpense(e: Doc, now: int): (r: Row)
    ensures r.id == IdOf(e)
    ensures OrElse(r.description, Get(e, "description"), Str(""))
    ensures OrElse(r.amount, Get(e, "amount"), Num(0.0))
    ensures OrElse(r.date, Get(e, "date"), Time(now))
    ensures OrElse(r.category, Get(e, "category"), Str(""))
    ensures OrElse(r.notes, Get(e, "notes"), Str(""))
    ensures OrElse(r.teamId, Get(e, "teamId"), Str(""))
    ensures OrElse(r.userId, Get(e, "userId"), Str(""))
  {
    Row(
      id := IdOf(e),
      description := Or(Get(e, "description"), Str("")),
      amount := Or(Get(e, "amount"), Num(0.0)),
      date := Or(Get(e, "date"), Time(now)),
      category := Or(Get(e, "category"), Str("")),
      notes := Or(Get(e, "notes"), Str("")),
      teamId := Or(Get(e, "teamId"), Str("")),
      userId := Or(Get(e, "userId"), Str("")))
  }

  /** `TeamExpense.find()` mapped row by row, in natural order. */
  function TeamExpenseRows(all: seq<Doc>, now: int): (r: seq<Row>)
    ensures |r| == |all|
    ensures forall i :: 0 <= i < |all| ==> r[i] == MapTeamExpense(all[i], now)
  {
    MapSeq(all, (e: Doc) => MapTeamExpense(e, now))
  }

  /** The legacy capitalised keys, which this listing does not read. */
  const LegacyKeys: set<string> := {"Subject", "Amount", "Date", "Category", "User", "Team", "Status", "Notes", "Receipt"}

  /** A legacy key, whatever it holds, does not change a row. */
  lemma MapperIgnoresLegacyKeys(e: Doc, now: int, k: string, v: Value)
    requires k in LegacyKeys
    ensures MapTeamExpense(e[k := v], now) == MapTeamExpense(e, now)
  {
    var e' := e[k := v];
    assert k != "_id" && k != "description" && k != "amount" && k != "date";
    assert k != "category" && k != "notes" && k != "teamId" && k != "userId";
  }

  /** On a record without legacy keys the normaliser throws exactly when a
      stored `date` is not a Date, which the mapper passes through as it is.
      Otherwise the row agrees with the normaliser on the id and on every text
      field they share, and a stored date is the Date the normaliser renders. */
  lemma MapperAgreesWithFormatter(e: Doc, now: int)
    requires forall k :: k in LegacyKeys ==> k !in e
    ensures FormatExpense(e).None? <==> Truthy(Get(e, "date")) && !Get(e, "date").Time?
    ensures var row := MapTeamExpense(e, now);
      FormatExpense(e).Some? ==>
        var c := FormatExpense(e).value;
        && row.id == c.id
        && row.description == c.description && row.category == c.category && row.notes == c.notes
        && row.teamId == c.teamId && row.userId == c.userId
        && (Truthy(Get(e, "date")) ==> c.date == Iso(row.date))
  {
    assert Get(e, "Subject") == Null && Get(e, "Category") == Null && Get(e, "Notes") == Null;
    assert Get(e, "Team") == Null && Get(e, "User") == Null && Get(e, "Date") == Null;
  }

  /** The mapper and the normaliser part on a stored amount of numeric text:
      the row keeps the text, the normaliser turns it into a number. */
  lemma MapperKeepsAmountText(now: int)
    ensures var e := map["amount" := Str("12")];
      && MapTeamExpense(e, now).amount == Str("12")
      && FormatExpense(e).Some?
      && FormatExpense(e).value.amount == Num(12.0)
  {
    var e := map["amount" := Str("12")];
    assert Get(e, "Amount") == Null && Get(e, "Date") == Null && Get(e, "date") == Null;
    TwelveExample();
  }
}
