/** User roles (src/hooks/useUsers.ts): `updateUserRole` writes the role to the
    user's profile and, when that succeeded, sets it on the matching entry of
    the hook's list. A failure is silent: the list is left as it was. */
module Users {
  import opened Wrappers

  datatype User = User(id: string, email: string, role: string)

  function UpdateUserRole(users: seq<User>, userId: string, role: string, ok: bool): (r: seq<User>)
    ensures |r| == |users|
    ensures !ok ==> r == users
    // the matching entries take the new role and keep their id and email
    ensures ok ==> forall i :: 0 <= i < |users| && users[i].id == userId ==>
              r[i] == User(users[i].id, users[i].email, role)
    // every other entry is unchanged
    ensures forall i :: 0 <= i < |users| && users[i].id != userId ==> r[i] == users[i]
  {
    if !ok then users
    else seq(|users|, i requires 0 <= i < |users| => if users[i].id == userId then users[i].(role := role) else users[i])
  }

  /** The role a user has in the list, if the user is listed. */
  function RoleOf(users: seq<User>, userId: string): (r: Option<string>)
    ensures r.Some? <==> exists i :: 0 <= i < |users| && users[i].id == userId
    ensures r.Some? ==> exists i :: 0 <= i < |users| && users[i].id == userId && users[i].role == r.value
  {
    if users == [] then None
    else if users[0].id == userId then Some(users[0].role)
    else
      var rest := RoleOf(users[1..], userId);
      assert forall i :: 0 < i < |users| ==> users[i] == users[1..][i - 1];
      rest
  }

  /** After a successful update the listed user reads back the new role, and
      every other user reads back the role they had. */
  lemma RoleReadsBack(users: seq<User>, userId: string, role: string, other: string)
    requires other != userId
    ensures var r := UpdateUserRole(users, userId, role, true);
      && (RoleOf(users, userId).Some? ==> RoleOf(r, userId) == Some(role))
      && RoleOf(r, other) == RoleOf(users, other)
  {
    UpdatedRoleReadsBack(users, userId, role);
    OtherRoleStays(users, userId, role, other);
  }

  lemma {:induction false} UpdatedRoleReadsBack(users: seq<User>, userId: string, role: string)
    ensures RoleOf(users, userId).Some? ==> RoleOf(UpdateUserRole(users, userId, role, true), userId) == Some(role)
  {
    if users != [] && users[0].id != userId {
      var r := UpdateUserRole(users, userId, role, true);
      UpdatedRoleReadsBack(users[1..], userId, role);
      assert r[1..] == UpdateUserRole(users[1..], userId, role, true);
      assert r[0] == users[0];
    }
  }

  lemma {:induction false} OtherRoleStays(users: seq<User>, userId: string, role: string, other: string)
    requires other != userId
    ensures RoleOf(UpdateUserRole(users, userId, role, true), other) == RoleOf(users, other)
  {
    if users != [] && users[0].id != other {
      var r := UpdateUserRole(users, userId, role, true);
      OtherRoleStays(users[1..], userId, role, other);
      assert r[1..] == UpdateUserRole(users[1..], userId, role, true);
      assert r[0].id == users[0].id;
    }
  }

  /** Setting a role twice is the same as setting it once. */
  lemma UpdateIdempotent(users: seq<User>, userId: string, role: string)
    ensures UpdateUserRole(UpdateUserRole(users, userId, role, true), userId, role, true)
         == UpdateUserRole(users, userId, role, true)
  {
  }
}
