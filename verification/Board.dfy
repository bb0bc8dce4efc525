/** The records, roles and errors both stores share (board/types.go, store/store.go). */
module Board {
  import opened Bytes

  datatype Option<+T> = None | Some(value: T)

  datatype Error = NotFound | Conflict | IdempotencyConflict | Denied | Validation | Dependency

  datatype Outcome<+T> = Ok(value: T) | Err(error: Error)

  // A role is a string in the source; every text that names no role is an Unknown one.
  datatype Role = Owner | Admin | Poster | Reader | Connector | Unknown(text: Str)

  const NO_ROLE := Unknown([])

  datatype Capability = CapOwner | CapManage | CapPost | CapRead | CapConnect

  datatype Action =
    | CreateRoom | ListOwnRooms | ConnectRoom | ReadMessages
    | PostMessage | UpdateNickname | ViewAllowList | UpdateAllowList

  function CapabilitiesForRole(role: Role): Option<seq<Capability>> {
    match role
    case Owner => Some([CapOwner, CapManage, CapPost, CapRead, CapConnect])
    case Admin => Some([CapManage, CapPost, CapRead, CapConnect])
    case Poster => Some([CapPost, CapRead, CapConnect])
    case Reader => Some([CapRead, CapConnect])
    case Connector => Some([CapConnect])
    case Unknown(_) => None
  }

  function Capabilities(role: Role): seq<Capability> {
    match CapabilitiesForRole(role)
    case Some(capabilities) => capabilities
    case None => []
  }

  predicate MutableRole(role: Role) {
    CapabilitiesForRole(role).Some? && role != Owner
  }

  predicate RoleCan(role: Role, action: Action) {
    match action
    case CreateRoom => true
    case ListOwnRooms => true
    case ConnectRoom => role.Owner? || role.Admin? || role.Poster? || role.Reader? || role.Connector?
    case ReadMessages => role.Owner? || role.Admin? || role.Poster? || role.Reader?
    case PostMessage => role.Owner? || role.Admin? || role.Poster?
    case UpdateNickname => role.Owner? || role.Admin? || role.Poster? || role.Reader? || role.Connector?
    case ViewAllowList => role.Owner? || role.Admin?
    case UpdateAllowList => role.Owner? || role.Admin?
  }

  const DEFAULT_LIST_LIMIT := 25
  const DEFAULT_MESSAGES_LIMIT := 50
  const MAX_LIMIT := 100

  function BoundLimit(limit: int, defaultLimit: int): int {
    var standard := if defaultLimit <= 0 then DEFAULT_LIST_LIMIT else defaultLimit;
    if limit <= 0 then standard else if limit > MAX_LIMIT then MAX_LIMIT else limit
  }

  // A page has 50 messages or 25 list entries unless a limit is asked for, and never more than 100.
  lemma PageLimits(limit: int)
    ensures limit <= 0 ==> BoundLimit(limit, DEFAULT_MESSAGES_LIMIT) == 50
    ensures limit <= 0 ==> BoundLimit(limit, DEFAULT_LIST_LIMIT) == 25
    ensures 1 <= limit <= 100 ==> forall standard :: BoundLimit(limit, standard) == limit
    ensures limit > 100 ==> forall standard :: BoundLimit(limit, standard) == 100
  {
  }

  // Who may do what, role by role.
  lemma RolePowers(role: Role)
    ensures RoleCan(role, UpdateAllowList) <==> role in {Owner, Admin}
    ensures RoleCan(role, ViewAllowList) <==> role in {Owner, Admin}
    ensures RoleCan(role, PostMessage) <==> role in {Owner, Admin, Poster}
    ensures RoleCan(role, ReadMessages) <==> role in {Owner, Admin, Poster, Reader}
    ensures RoleCan(role, ConnectRoom) <==> role in {Owner, Admin, Poster, Reader, Connector}
    ensures RoleCan(role, UpdateNickname) <==> role in {Owner, Admin, Poster, Reader, Connector}
    ensures MutableRole(role) <==> role in {Admin, Poster, Reader, Connector}
  {
  }

  // The manage and post capabilities say exactly what the role matrix says.
  lemma CapabilitiesAgreeWithRoleMatrix(role: Role)
    ensures CapManage in Capabilities(role) <==> RoleCan(role, UpdateAllowList)
    ensures CapPost in Capabilities(role) <==> RoleCan(role, PostMessage)
    ensures CapRead in Capabilities(role) <==> RoleCan(role, ReadMessages)
    ensures CapConnect in Capabilities(role) <==> RoleCan(role, ConnectRoom)
    ensures CapOwner in Capabilities(role) <==> role == Owner
  {
  }

  type Time = int

  datatype Room = Room(
    roomID: Str, roomKey: Str, name: Str, description: Str, owner: Str,
    createdAt: Time, updatedAt: Time, version: int, archived: bool, memberCount: int)

  datatype Membership = Membership(
    roomID: Str, roomKey: Str, agent: Str, nickname: Str, nicknameKey: Str,
    role: Role, capabilities: seq<Capability>, createdBy: Str, updatedBy: Str,
    createdAt: Time, updatedAt: Time, version: int)

  datatype Message = Message(
    roomID: Str, roomKey: Str, messageID: Str, author: Str, authorNickname: Str,
    body: Str, createdAt: Time, idempotencyKey: Str, requestHash: Str)

  datatype EventType = RoomCreated | AllowlistGranted | AllowlistRevoked

  datatype Audit = Audit(
    event: EventType, actor: Str, target: Str, role: Role, tokenJTIHash: Str, createdAt: Time)

  datatype Idempotency = Idempotency(requestHash: Str, messageID: Str)

  datatype AuthSnapshot = AuthSnapshot(room: Room, membership: Option<Membership>)

  datatype CreateRoomInput = CreateRoomInput(roomID: Str, name: Str, description: Str, tokenJTIHash: Str)

  datatype GrantInput = GrantInput(
    roomID: Str, targetAgent: Str, role: Role, tokenJTIHash: Str,
    actorMemberVersion: int, expectedRoomVersion: int)

  datatype RevokeInput = RevokeInput(
    roomID: Str, targetAgent: Str, tokenJTIHash: Str,
    actorMemberVersion: int, expectedRoomVersion: int)

  datatype SetNicknameInput = SetNicknameInput(
    roomID: Str, nickname: Str, nicknameKey: Str, actorMemberVersion: int)

  datatype PostInput = PostInput(
    roomID: Str, body: Str, authorNickname: Str, idempotencyKey: Str,
    requestHash: Str, actorMemberVersion: int)

  datatype Reply =
    | RoomReply(room: Room)
    | GrantReply(member: Membership, created: bool)
    | RevokeReply
    | NicknameReply(profile: Membership)
    | PostReply(message: Message, replay: bool)
}
