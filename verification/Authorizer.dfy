/** LocalAuthorizer (authorization/authorizer.go). */
module Authorizer {
  import opened Bytes
  import opened Board

  datatype AuthContext = AuthContext(target: Str, newRole: Role)

  const NO_CONTEXT := AuthContext([], NO_ROLE)

  predicate Authorized(agent: Str, action: Action, snapshot: AuthSnapshot, context: AuthContext) {
    if action == CreateRoom || action == ListOwnRooms then true
    else if action == UpdateAllowList && context.newRole == Owner then false
    else if action == UpdateAllowList && context.target != [] && context.target == snapshot.room.owner then false
    else if snapshot.room.archived then false
    else if snapshot.room.owner == agent then true
    else if snapshot.membership.None? then false
    else RoleCan(snapshot.membership.value.role, action)
  }
}
