/**
 DynamoDBStore behind the HTTP handlers (store/dynamodb.go, httpapi/server.go): each request is a client that
 takes one table access per step - a consistent read or one conditional transaction - and other clients may
 act between its steps.
 */
module DynamoStore {
  import opened Bytes
  import opened Board
  import opened BoardSpec
  import opened DynamoTable
  import Base64Url
  import Authorizer
  import BoardInvariant

  // A request whose inputs have passed validation; the actor comes from the verified token.
  datatype Request =
    | CreateRequest(roomID: Str, name: Str, description: Str, jti: Str)
    | GrantRequest(roomID: Str, target: Str, role: Role, jti: Str)
    | RevokeRequest(roomID: Str, target: Str, jti: Str)
    | NicknameRequest(roomID: Str, nickname: Str, nicknameKey: Str)
    | PostRequest(roomID: Str, body: Str, idempotencyKey: Str, requestHash: Str)

  predicate Validated(req: Request) {
    match req
    case CreateRequest(_, _, _, _) => true
    case GrantRequest(_, target, role, _) => target != [] && MutableRole(role)
    case RevokeRequest(_, target, _) => target != []
    case NicknameRequest(_, nickname, key) => key != [] && key == BoardInvariant.Lower(nickname)
    case PostRequest(_, _, idempotencyKey, _) => idempotencyKey != []
  }

  function RoomKeyOf(req: Request): Str {
    Base64Url.Encode(req.roomID)
  }

  function ActionOf(req: Request): Board.Action {
    match req
    case CreateRequest(_, _, _, _) => CreateRoom
    case GrantRequest(_, _, _, _) => UpdateAllowList
    case RevokeRequest(_, _, _) => UpdateAllowList
    case NicknameRequest(_, _, _) => UpdateNickname
    case PostRequest(_, _, _, _) => Board.Action.PostMessage
  }

  function ContextOf(req: Request): Authorizer.AuthContext {
    match req
    case GrantRequest(_, target, role, _) => Authorizer.AuthContext(target, role)
    case RevokeRequest(_, target, _) => Authorizer.AuthContext(target, NO_ROLE)
    case _ => Authorizer.NO_CONTEXT
  }

  function ActorVersion(snapshot: AuthSnapshot): int {
    if snapshot.membership.Some? then snapshot.membership.value.version else 0
  }

  // The store call a handler makes after taking its snapshot.
  function OperationOf(req: Request, snapshot: AuthSnapshot): Operation {
    var version := ActorVersion(snapshot);
    match req
    case CreateRequest(roomID, name, description, jti) =>
      OpCreate(CreateRoomInput(roomID, name, description, jti))
    case GrantRequest(roomID, target, role, jti) =>
      OpGrant(GrantInput(roomID, target, role, jti, version, snapshot.room.version))
    case RevokeRequest(roomID, target, jti) =>
      OpRevoke(RevokeInput(roomID, target, jti, version, snapshot.room.version))
    case NicknameRequest(roomID, nickname, key) =>
      OpNickname(SetNicknameInput(roomID, nickname, key, version))
    case PostRequest(roomID, body, key, hash) =>
      var nickname := if snapshot.membership.Some? then snapshot.membership.value.nickname else [];
      OpPost(PostInput(roomID, body, nickname, key, hash, version))
  }

  // ---------------------------------------------------------------- Transactions

  // The roles actorConditionTxn lists for an action.
  function ActorRoles(action: Board.Action): set<Role> {
    match action
    case PostMessage => {Owner, Admin, Poster}
    case UpdateAllowList => {Owner, Admin}
    case UpdateNickname => {Owner, Admin, Poster, Reader, Connector}
    case _ => {Owner}
  }

  lemma ActorRolesAreRoleCan(role: Role, action: Board.Action)
    requires action == Board.Action.PostMessage || action == UpdateAllowList || action == UpdateNickname
    ensures role in ActorRoles(action) <==> RoleCan(role, action)
  {
  }

  function ActorCondition(roomKey: Str, agent: Str, version: int, action: Board.Action): WriteItem {
    WriteItem(InRoom(roomKey, Member(agent)), ActorIs(version, ActorRoles(action)), Check)
  }

  function RoomOpenCondition(roomKey: Str): WriteItem {
    WriteItem(InRoom(roomKey, Meta), RoomOpen, Check)
  }

  function PutAudit(roomKey: Str, auditID: Str, audit: Audit): WriteItem {
    WriteItem(InRoom(roomKey, AuditEntry(auditID)), Absent, Put(AuditItem(audit)))
  }

  function CreateWrites(limits: Limits, agent: Str, input: CreateRoomInput, now: Time, auditID: Str): seq<WriteItem> {
    var state := NewRoom(agent, input, now);
    var roomKey := state.room.roomKey;
    [WriteItem(InRoom(roomKey, Meta), Absent, Put(RoomItem(state.room))),
     WriteItem(InRoom(roomKey, Member(agent)), Absent, Put(MemberItem(state.members[agent]))),
     PutAudit(roomKey, auditID, Audit(RoomCreated, agent, agent, Owner, input.tokenJTIHash, now)),
     WriteItem(Quota(agent), QuotaBelow(limits.maxRooms), IncrementQuota)]
  }

  function GrantGuard(roomKey: Str, agent: Str, input: GrantInput): seq<WriteItem> {
    [WriteItem(InRoom(roomKey, Meta), RoomOpenAt(input.expectedRoomVersion), Check),
     ActorCondition(roomKey, agent, input.actorMemberVersion, UpdateAllowList)]
  }

  // The membership item the grant puts or reports.
  function GrantItem(roomKey: Str, agent: Str, input: GrantInput, found: Option<Membership>, now: Time): Membership {
    match found
    case None =>
      Membership(
        input.roomID, roomKey, input.targetAgent, [], [], input.role, Capabilities(input.role),
        agent, agent, now, now, 1)
    case Some(existing) =>
      Membership(
        input.roomID, roomKey, input.targetAgent, existing.nickname, existing.nicknameKey,
        input.role, Capabilities(input.role), existing.createdBy, agent, existing.createdAt, now,
        existing.version + 1)
  }

  function PutOrUpdateMembership(roomKey: Str, member: Membership, created: bool): WriteItem {
    var key := InRoom(roomKey, Member(member.agent));
    if created then WriteItem(key, Absent, Put(MemberItem(member)))
    else WriteItem(key, NotOwner, SetRole(member.role, member.capabilities, member.updatedBy, member.updatedAt))
  }

  function GrantWrites(
    limits: Limits, roomKey: Str, agent: Str, input: GrantInput, found: Option<Membership>, now: Time, auditID: Str)
    : seq<WriteItem>
  {
    var created := found.None?;
    var condition := if created then RoomOpenBelow(input.expectedRoomVersion, limits.maxMembers)
                     else RoomOpenAt(input.expectedRoomVersion);
    [ActorCondition(roomKey, agent, input.actorMemberVersion, UpdateAllowList),
     WriteItem(InRoom(roomKey, Meta), condition, BumpRoom(if created then 1 else 0, now)),
     PutOrUpdateMembership(roomKey, GrantItem(roomKey, agent, input, found, now), created),
     PutAudit(roomKey, auditID,
              Audit(AllowlistGranted, agent, input.targetAgent, input.role, input.tokenJTIHash, now))]
  }

  function DeleteNickname(roomKey: Str, nicknameKey: Str, agent: Str): WriteItem {
    WriteItem(InRoom(roomKey, Nick(nicknameKey)), AgentIs(agent), Delete)
  }

  function RevokeWrites(
    roomKey: Str, agent: Str, input: RevokeInput, found: Membership, now: Time, auditID: Str): seq<WriteItem>
  {
    var target := input.targetAgent;
    [ActorCondition(roomKey, agent, input.actorMemberVersion, UpdateAllowList),
     WriteItem(InRoom(roomKey, Member(target)), Revocable(found.version, found.nicknameKey), Delete),
     WriteItem(InRoom(roomKey, Meta), RoomOpenAt(input.expectedRoomVersion), BumpRoom(-1, now)),
     PutAudit(roomKey, auditID, Audit(AllowlistRevoked, agent, target, NO_ROLE, input.tokenJTIHash, now))]
    + (if found.nicknameKey != [] then [DeleteNickname(roomKey, found.nicknameKey, target)] else [])
  }

  function MemberGuard(roomKey: Str, agent: Str, version: int, action: Board.Action): seq<WriteItem> {
    [RoomOpenCondition(roomKey), ActorCondition(roomKey, agent, version, action)]
  }

  predicate SameNickname(member: Membership, input: SetNicknameInput) {
    member.nickname == input.nickname && member.nicknameKey == input.nicknameKey
  }

  function NicknameWrites(
    roomKey: Str, agent: Str, input: SetNicknameInput, found: Membership, now: Time): seq<WriteItem>
  {
    [RoomOpenCondition(roomKey),
     WriteItem(
       InRoom(roomKey, Member(agent)), MemberIs(input.actorMemberVersion, found.role),
       SetNick(input.nickname, input.nicknameKey, agent, now))]
    + (if found.nicknameKey != [] && found.nicknameKey != input.nicknameKey
       then [DeleteNickname(roomKey, found.nicknameKey, agent)] else [])
    + (if found.nicknameKey != input.nicknameKey
       then [WriteItem(InRoom(roomKey, Nick(input.nicknameKey)), AbsentOrAgentIs(agent), Put(NickItem(agent)))]
       else [])
  }

  function PostMessageItem(roomKey: Str, agent: Str, input: PostInput, now: Time, messageID: Str): Message {
    Message(
      input.roomID, roomKey, messageID, agent, input.authorNickname, input.body, now,
      input.idempotencyKey, input.requestHash)
  }

  function PostWrites(roomKey: Str, agent: Str, input: PostInput, now: Time, messageID: Str): seq<WriteItem> {
    [RoomOpenCondition(roomKey),
     ActorCondition(roomKey, agent, input.actorMemberVersion, Board.Action.PostMessage),
     WriteItem(
       InRoom(roomKey, Idemp(IdempotencyKeyOf(agent, input.idempotencyKey))), Absent,
       Put(IdempotencyItem(Idempotency(input.requestHash, messageID)))),
     WriteItem(
       InRoom(roomKey, Msg(messageID)), Absent,
       Put(MessageItem(PostMessageItem(roomKey, agent, input, now, messageID))))]
  }

  // ---------------------------------------------------------------- Clients

  datatype Client =
    | Ready(actor: Str, req: Request)
    | GotRoom(actor: Str, req: Request, room: Room)
    | Allowed(actor: Str, req: Request, snapshot: AuthSnapshot)
    | Targeting(actor: Str, req: Request, snapshot: AuthSnapshot)
    | Writing(actor: Str, req: Request, snapshot: AuthSnapshot, found: Option<Membership>)
    | PostRefused(actor: Str, req: Request, snapshot: AuthSnapshot)
    | Replaying(actor: Str, req: Request, snapshot: AuthSnapshot, record: Idempotency)
    | Fetching(actor: Str, req: Request, snapshot: AuthSnapshot, record: Idempotency)
    | ClassifyRoom(actor: Str, req: Request, snapshot: AuthSnapshot)
    | ClassifyMember(actor: Str, req: Request, snapshot: AuthSnapshot)
    | Finished(actor: Str, req: Request, outcome: Outcome<Reply>)

  // A call may fail before it has an effect, or have its effect and lose the reply.
  datatype Fault = NoFault | Unavailable | ReplyLost

  // What the environment supplies to one step: the clock, fresh IDs and a fault.
  datatype Choice = Choice(now: Time, messageID: Str, auditID: Str, fault: Fault)

  // The transaction a client is about to run, if its next step is one.
  function TransactionOf(limits: Limits, c: Client, ch: Choice): Option<seq<WriteItem>> {
    match c
    case Ready(actor, CreateRequest(roomID, name, description, jti)) =>
      Some(CreateWrites(limits, actor, CreateRoomInput(roomID, name, description, jti), ch.now, ch.auditID))
    case Writing(actor, req, snapshot, found) =>
      var roomKey := RoomKeyOf(req);
      (match OperationOf(req, snapshot)
       case OpCreate(_) => None
       case OpGrant(input) =>
         if found.Some? && found.value.role == input.role then Some(GrantGuard(roomKey, actor, input))
         else Some(GrantWrites(limits, roomKey, actor, input, found, ch.now, ch.auditID))
       case OpRevoke(input) =>
         if found.None? then None else Some(RevokeWrites(roomKey, actor, input, found.value, ch.now, ch.auditID))
       case OpNickname(input) =>
         if found.None? then None
         else if SameNickname(found.value, input) then
           Some(MemberGuard(roomKey, actor, input.actorMemberVersion, UpdateNickname))
         else Some(NicknameWrites(roomKey, actor, input, found.value, ch.now))
       case OpPost(input) => Some(PostWrites(roomKey, actor, input, ch.now, ch.messageID)))
    case Replaying(actor, req, snapshot, _) =>
      Some(MemberGuard(RoomKeyOf(req), actor, ActorVersion(snapshot), Board.Action.PostMessage))
    case _ => None
  }

  // The reply a client builds from what it read, once its transaction has committed.
  function ReplyOf(c: Client, ch: Choice): Outcome<Reply>
    requires c.Ready? || c.Writing?
    requires c.Ready? ==> c.req.CreateRequest?
    requires c.Writing? && !c.req.GrantRequest? && !c.req.PostRequest? ==> c.found.Some?
  {
    var roomKey := RoomKeyOf(c.req);
    var op := OperationOf(c.req, if c.Writing? then c.snapshot else NO_SNAPSHOT);
    match op
    case OpCreate(input) => Ok(RoomReply(NewRoom(c.actor, input, ch.now).room))
    case OpGrant(input) =>
      if c.found.Some? && c.found.value.role == input.role then Ok(GrantReply(c.found.value, false))
      else Ok(GrantReply(GrantItem(roomKey, c.actor, input, c.found, ch.now), c.found.None?))
    case OpRevoke(_) => Ok(RevokeReply)
    case OpNickname(input) =>
      var member := c.found.value;
      if SameNickname(member, input) then Ok(NicknameReply(member))
      else
        Ok(NicknameReply(member.(
           nickname := input.nickname, nicknameKey := input.nicknameKey,
           updatedBy := c.actor, updatedAt := ch.now, version := member.version + 1)))
    case OpPost(input) => Ok(PostReply(PostMessageItem(roomKey, c.actor, input, ch.now, ch.messageID), false))
  }

  const NO_SNAPSHOT := AuthSnapshot(Room([], [], [], [], [], 0, 0, 0, false, 0), None)

  function Fail(c: Client, error: Error): Client {
    Finished(c.actor, c.req, Err(error))
  }

  function GetRoom(table: Table, roomKey: Str): Option<Room> {
    match Get(table, InRoom(roomKey, Meta))
    case Some(RoomItem(room)) => Some(room)
    case _ => None
  }

  function GetMember(table: Table, roomKey: Str, agent: Str): Option<Membership> {
    match Get(table, InRoom(roomKey, Member(agent)))
    case Some(MemberItem(member)) => Some(member)
    case _ => None
  }

  function GetIdempotency(table: Table, roomKey: Str, key: Str): Option<Idempotency> {
    match Get(table, InRoom(roomKey, Idemp(key)))
    case Some(IdempotencyItem(record)) => Some(record)
    case _ => None
  }

  function GetMessage(table: Table, roomKey: Str, messageID: Str): Option<Message> {
    match Get(table, InRoom(roomKey, Msg(messageID)))
    case Some(MessageItem(message)) => Some(message)
    case _ => None
  }

  // A step that only reads the table.
  function ReadStep(table: Table, c: Client): Client
    requires !c.Writing? && !c.Replaying? && !c.Finished? && !(c.Ready? && c.req.CreateRequest?)
  {
    var roomKey := RoomKeyOf(c.req);
    match c
    case Ready(actor, req) =>
      (match GetRoom(table, roomKey)
       case None => Fail(c, NotFound)
       case Some(room) => GotRoom(actor, req, room))
    case GotRoom(actor, req, room) =>
      var snapshot := AuthSnapshot(room, GetMember(table, roomKey, actor));
      if Authorizer.Authorized(actor, ActionOf(req), snapshot, ContextOf(req)) then Allowed(actor, req, snapshot)
      else Fail(c, Denied)
    case Allowed(actor, req, snapshot) =>
      (match req
       case NicknameRequest(_, _, _) =>
         (match GetMember(table, roomKey, actor)
          case None => Fail(c, Denied)
          case Some(member) =>
            if RoleCan(member.role, UpdateNickname) then Writing(actor, req, snapshot, Some(member))
            else Fail(c, Denied))
       case PostRequest(_, _, key, _) =>
         (match GetIdempotency(table, roomKey, IdempotencyKeyOf(actor, key))
          case Some(record) => Replaying(actor, req, snapshot, record)
          case None => Writing(actor, req, snapshot, None))
       case CreateRequest(_, _, _, _) => c
       case _ =>
         (match GetRoom(table, roomKey)
          case None => Fail(c, NotFound)
          case Some(room) =>
            if req.target == actor || req.target == room.owner then Fail(c, Denied)
            else Targeting(actor, req, snapshot)))
    case Targeting(actor, req, snapshot) =>
      if !req.GrantRequest? && !req.RevokeRequest? then c
      else
        var found := GetMember(table, roomKey, req.target);
        if req.RevokeRequest? && found.None? then Fail(c, NotFound) else Writing(actor, req, snapshot, found)
    case PostRefused(actor, req, snapshot) =>
      if !req.PostRequest? then c
      else
        (match GetIdempotency(table, roomKey, IdempotencyKeyOf(actor, req.idempotencyKey))
         case Some(record) => Replaying(actor, req, snapshot, record)
         case None => ClassifyRoom(actor, req, snapshot))
    case Fetching(actor, req, snapshot, record) =>
      (match GetMessage(table, roomKey, record.messageID)
       case None => Fail(c, NotFound)
       case Some(message) => Finished(actor, req, Ok(PostReply(message, true))))
    case ClassifyRoom(actor, req, snapshot) =>
      (match GetRoom(table, roomKey)
       case None => Fail(c, Denied)
       case Some(room) => if room.archived then Fail(c, Denied) else ClassifyMember(actor, req, snapshot))
    case ClassifyMember(actor, req, snapshot) =>
      (match GetMember(table, roomKey, actor)
       case None => Fail(c, Denied)
       case Some(member) =>
         if ActorVersion(snapshot) != 0 && member.version != ActorVersion(snapshot) then Fail(c, Conflict)
         else if !RoleCan(member.role, Board.Action.PostMessage) then Fail(c, Denied)
         else Fail(c, Conflict))
  }

  // Where a client goes after its transaction was cancelled by a condition.
  function AfterRefusal(c: Client): Client {
    if c.Writing? && c.req.PostRequest? then PostRefused(c.actor, c.req, c.snapshot)
    else if c.Replaying? then ClassifyRoom(c.actor, c.req, c.snapshot)
    else Fail(c, Conflict)
  }

  // Where a client goes after its transaction committed and the reply arrived.
  function AfterCommit(c: Client, ch: Choice): Client
    requires c.Replaying? || c.Ready? || c.Writing?
    requires c.Ready? ==> c.req.CreateRequest?
    requires c.Writing? && !c.req.GrantRequest? && !c.req.PostRequest? ==> c.found.Some?
  {
    if c.Replaying? then
      if c.req.PostRequest? && c.record.requestHash == c.req.requestHash
      then Fetching(c.actor, c.req, c.snapshot, c.record)
      else Fail(c, IdempotencyConflict)
    else Finished(c.actor, c.req, ReplyOf(c, ch))
  }

  predicate Commits(limits: Limits, table: Table, c: Client, ch: Choice) {
    && TransactionOf(limits, c, ch).Some?
    && ch.fault != Unavailable
    && Passes(table, TransactionOf(limits, c, ch).value)
  }

  // One step of one client: the new table and the new client.
  function Step(limits: Limits, table: Table, c: Client, ch: Choice): (Table, Client) {
    if c.Finished? || (c.Writing? && c.req.CreateRequest?) then (table, c)
    else if c.Writing? && !c.req.GrantRequest? && !c.req.PostRequest? && c.found.None? then (table, c)
    else
      match TransactionOf(limits, c, ch)
      case Some(writes) =>
        if ch.fault == Unavailable then (table, Fail(c, Dependency))
        else
          (match Transact(table, writes)
           case Ok(table') =>
             (table', if ch.fault == ReplyLost then Fail(c, Dependency) else AfterCommit(c, ch))
           case Err(_) =>
             (table, if ch.fault == ReplyLost then Fail(c, Dependency) else AfterRefusal(c)))
      case None =>
        if ch.fault != NoFault then (table, Fail(c, Dependency)) else (table, ReadStep(table, c))
  }

  // The transactions are ones DynamoDB accepts: no item is named twice.
  lemma TransactionKeysDistinct(limits: Limits, c: Client, ch: Choice)
    requires TransactionOf(limits, c, ch).Some?
    requires c.Writing? && (c.req.GrantRequest? || c.req.RevokeRequest?) ==> c.req.target != c.actor
    ensures DistinctKeys(TransactionOf(limits, c, ch).value)
  {
    hide IdempotencyKeyOf, Base64Url.Encode, Validated, Capabilities, PostMessageItem;
    match c
    case Ready(_, _) =>
    case Replaying(_, _, _, _) =>
    case Writing(_, req, _, _) =>
      match req {
        case CreateRequest(_, _, _, _) =>
        case GrantRequest(_, _, _, _) =>
        case RevokeRequest(_, _, _) =>
        case NicknameRequest(_, _, _) =>
        case PostRequest(_, _, _, _) =>
      }
    case _ =>
  }
}
