# Verified models of the DNSid cookbook's stores and one-use signatures

A Dafny model of the stateful parts of three recipes, with proofs of what they promise.

- **The message board (recipe 29).** `BoardSpec` says what each store operation does to a board. `MemoryStore` is
  the in-memory store as classes with mutable maps, each method proved to be one step of that specification.
  `DynamoTable` and `DynamoStore` are the table with its conditional transactions and the HTTP handlers as clients
  that take one table access per step; `Interleaving` lets any number of them act in any order. `Refinement`,
  `CommitSteps`, `Stability` and `RunInvariant` carry the proof that a committed transaction is one operation
  of the same specification (but for raced nickname changes, below); `CommitExactly` and `UndisturbedCalls` show the
  converse, that the table refuses no more than the specification does; `BoardTheorems`, `SnapshotAuthorization` and
  `NicknameRace` draw the conclusions, and `ReachableRaces` gives the runs that show their conditions to be needed.
  `BoardEffects` and `TableEffects` say field by field what each operation and each committed request leaves, apart
  from the definitions the proofs share; `TableHistory`, `RefusedPosts` and `RacedRooms` carry that over whole runs.
  `Paging` and `TableQuery` treat reading messages; `Validation`, `RoomText`, `Base64Url` and `Authorizer` the parts
  around.
- **One-use signed actions (recipe 30).** `ReplayStore`, `ProofVerifier`, `Interceptor` and `OrderRuns`: from the
  nonce table up to whole runs of interceptor and order target, with `OrderRefusals` for what is answered otherwise and
  `UnboundOrders` for a call whose order its proof does not cover. `CanonicalJson`, `JsonParsing`, `ActionProof` are
  the text that is hashed and signed; `StableJson` is the variant that agent cards are signed over (recipe 12).
- **The ingress worker (recipe 32).** `NonceStore` and `TxtStrings`.

Go strings are sequences of octets (`Bytes.Str`); Python and TypeScript strings are Dafny strings. Clocks, fresh IDs,
faults and row deletions are inputs. Library functions (NFC, TrimSpace, ToASCII, SHA-256, case mapping, JWT claims,
the DNSid SDK's verdict on a signature) are function or data parameters; where a statement needs a fact about one, it
is a `requires` of that statement. Functions named `other` or `loads` stand for every spelling a lenient decoder
accepts besides the one the program itself writes.

## How a run of the board is stated

`Interleaving.Run` executes a list of moves - a request arrives, or a client takes its next step - from the empty
table, a fault or a lost reply at any step included. Beside the table it carries the board, which moves only when a
transaction commits, and history that no step reads. `RunInvariant.RunKeeps` is the invariant of all runs; a run is
*admissible* when requests are validated and client IDs are not reused, and nothing is asked of the schedule.

One kind of commit is not an operation of the specification. A nickname change whose actor was revoked since it was
read (`Interleaving.Disturbed`) may find a membership other than the one it read; `Interleaving.CommittedBoard` states
what it writes, and `raced` collects the rooms in which one has committed. Roles, members, counters, audit log, messages
and records do not depend on nicknames, so authorization, allow-list history and exactly-once posting hold in every
run; only the nickname index, and equality with an atomic store, are stated outside those rooms.

## What does not hold

- Member versions restart at 1 when an agent is granted again. A nickname transaction can therefore match a
  membership other than the one read, and leave a nickname item nobody owns
  (`ReachableRaces.StaleNicknameReached` is such a run); `NicknameRace.NicknameCommitExactly` says exactly when the
  index stays right.
- A grant builds its reply from an earlier read of the target, so nickname and version in the reply may lag behind
  the stored item (`ReachableRaces.LaggingReplyReached`); they do not exactly when the version read is the one stored
  (`SnapshotAuthorization.GrantReplyExact`). The stored item itself is always right, because the update leaves the
  nickname fields alone.
- A proof binds an order's arguments exactly when they arrive as an object: other values are checked as an empty
  object, while the target also reads an order from text (`OrderRuns.BoundExactlyForObjects`,
  `UnboundOrders.TextArgumentsAreNotBound`), however strong the digest (`UnboundOrders.DeploymentExists`).
- At most one acceptance per proof needs a clock that does not go back; `ReplayStore.AcceptedExactly` and
  `NonceStore.GrantedExactly` say what happens under any clock.
- With a room limit below 1 the table still lets an agent create a first room and MemoryStore does not
  (`CommitExactly.CreateAgreesExactly`).
- Both stores refuse a create or grant over its limit, with different error codes.

## Model

| member | source | states |
|---|---|---|
| `MemoryStore.MemoryStore.constructor` | recipes/29-dnsid-message-board/src/internal/store/memory.go:52-61 | a new store is the empty board and satisfies the store invariant `Valid()` |
| `MemoryStore.MemoryStore.CreateRoom` | recipes/29-dnsid-message-board/src/internal/store/memory.go:63-128 | the call is one step of the board specification on the abstracted store, invalid IDs change nothing, `Valid()` - the whole board invariant - is kept; and a success returns and files a room with the name (the room ID if empty), description, owner and creation time asked for |
| `MemoryStore.MemoryStore.GrantAllowlist` | recipes/29-dnsid-message-board/src/internal/store/memory.go:216-292 | as above for grants, in the order of checks of the code, with room ID and target agent canonicalized first |
| `MemoryStore.MemoryStore.RevokeAllowlist` | recipes/29-dnsid-message-board/src/internal/store/memory.go:294-344 | as above for revocations |
| `MemoryStore.MemoryStore.SetNickname` | recipes/29-dnsid-message-board/src/internal/store/memory.go:346-394 | as above for nickname changes; the key stored is the lower-cased display nickname |
| `MemoryStore.MemoryStore.PostMessage` | recipes/29-dnsid-message-board/src/internal/store/memory.go:396-446 | as above for posts and replays; the appended and re-sorted list is the old list with the message inserted at its place |
| `MemoryStore.MemoryStore.GetRoomForAgent` | recipes/29-dnsid-message-board/src/internal/store/memory.go:163-181 | the snapshot is the room and membership the board holds, or the error of an invalid or unknown room |
| `MemoryStore.MemoryStore.ReadMessages` | recipes/29-dnsid-message-board/src/internal/store/memory.go:448-486 | the page is the specified slice of the sorted messages; the binary search starts it at the first ID greater than `after` |
| `MemoryStore.MessagesPageMeans` | recipes/29-dnsid-message-board/src/internal/store/memory.go:448-486 | a bad cursor or room ID is invalid, an unknown room not found, and otherwise the page is read with a limit of 50, at most 100 |
| `MemoryStore.RoomRecord.Find` | recipes/29-dnsid-message-board/src/internal/store/memory.go:418-430 | the scan finds the first message with the recorded ID |
| `MemoryStore.SortUnique` | recipes/29-dnsid-message-board/src/internal/store/memory.go:440-443 | sorting by distinct message IDs has one possible result |
| `BoardInvariant.GrantKeepsRoom` | recipes/29-dnsid-message-board/src/internal/store/memory.go:216-292 | a grant keeps the room invariant: member count, limit, owner, capabilities, nickname index, audit log, version |
| `BoardInvariant.RevokeKeepsRoom` | recipes/29-dnsid-message-board/src/internal/store/memory.go:294-344 | a revocation keeps the room invariant and removes exactly the revoked member's nickname entry |
| `BoardInvariant.NicknameKeepsRoom` | recipes/29-dnsid-message-board/src/internal/store/memory.go:375-391 | a nickname change keeps the index the exact inverse of the members' non-empty keys |
| `BoardInvariant.PostKeepsRoom` | recipes/29-dnsid-message-board/src/internal/store/memory.go:396-446 | a post keeps messages sorted and records and messages pointing at each other |
| `BoardInvariant.NewRoomOk` | recipes/29-dnsid-message-board/src/internal/store/memory.go:88-124 | a new room satisfies the room invariant: one owner, version 1, one audit entry |
| `BoardInvariant.ApplyKeepsBoard` | recipes/29-dnsid-message-board/src/internal/store/memory.go:63-446 | every operation by anybody keeps the whole board invariant: key bijection, every room, every quota |
| `BoardInvariant.RefusalChangesNothing` | recipes/29-dnsid-message-board/src/internal/store/memory.go:63-446 | a refused operation leaves the board exactly as it was |
| `BoardEffects.CreateMeans` | recipes/29-dnsid-message-board/src/internal/store/memory.go:81-127 | a creation is a conflict exactly for a known room ID, invalid exactly at the quota, and otherwise leaves exactly one room more: its text, owner, owner entry and first audit entry field by field, the quota counted up |
| `BoardEffects.ApplyMeans` | recipes/29-dnsid-message-board/src/internal/store/memory.go:216-416 | a role that cannot be granted and an empty idempotency key are invalid, then an unknown room is not found, then the room of that ID alone is touched |
| `BoardEffects.GrantRefusals` | recipes/29-dnsid-message-board/src/internal/store/memory.go:236-262 | exactly when a grant is a conflict (closed or changed list, changed actor), invalid (full room) or successful; nothing else but denial remains |
| `BoardEffects.GrantMeans` | recipes/29-dnsid-message-board/src/internal/store/memory.go:257-291 | a grant of the role held changes nothing; any other leaves a new entry, or the old one with role, capabilities, editor, time and version changed, the room counters, and one audit entry with actor, target, role and token ID |
| `BoardEffects.RevokeMeans` | recipes/29-dnsid-message-board/src/internal/store/memory.go:307-343 | exactly when a revocation is refused and with which error; otherwise entry and nickname are gone, the count is down, the version up, and one audit entry names actor, target and token ID |
| `BoardEffects.NicknameMeans` | recipes/29-dnsid-message-board/src/internal/store/memory.go:357-393 | exactly when a nickname change is refused and with which error; otherwise the entry shows the nickname and key, and the index holds the new key in place of the old |
| `BoardEffects.PostRefusals` | recipes/29-dnsid-message-board/src/internal/store/memory.go:408-430 | exactly when a post is denied, a key conflict, or successful |
| `BoardEffects.PostMeans` | recipes/29-dnsid-message-board/src/internal/store/memory.go:417-445 | a success is a stored message when the slot is taken, and otherwise adds one message with author, nickname, body, key, hash and time as given, and its record |
| `BoardEffects.SnapshotMeans` | recipes/29-dnsid-message-board/src/internal/store/memory.go:163-181 | a snapshot is the room filed under that ID with the agent's own entry, if any |
| `BoardRuns.RoomTextStays` | recipes/29-dnsid-message-board/src/internal/store/memory.go:63-446 | no operation changes a room's name, description, owner or creation time |
| `BoardRuns.ReachableBoard` | recipes/29-dnsid-message-board/src/internal/store/memory.go:63-446 | every board reached by any sequence of calls satisfies the invariant |
| `BoardRuns.AuditLogRebuilds` | recipes/29-dnsid-message-board/src/internal/store/memory.go:117-124 | in every reachable room the version counts the audit entries, folding them gives each member's role, and each later entry's actor was owner or admin of the list so far and its target neither actor nor owner |
| `BoardRuns.CreateOverwritesNothing` | recipes/29-dnsid-message-board/src/internal/store/memory.go:81-112 | CreateRoom checks the room ID alone and never overwrites another room's record |
| `BoardRuns.RecordAlwaysHasMessage` | recipes/29-dnsid-message-board/src/internal/store/memory.go:418-430 | an idempotency record always has its message, so the fallback conflict is unreachable |
| `BoardRuns.LaterPostAppends` | recipes/29-dnsid-message-board/src/internal/store/memory.go:440-443 | a post with a larger ID extends the message list at its end |
| `Validation.NormalizeRoomID` | recipes/29-dnsid-message-board/src/internal/validation/room.go:12-35 | accepts exactly the room IDs the predicate describes (edges, UTF-8, NFC, 128 runes, 512 bytes, no control characters) |
| `RoomText.TextIsCounted` | recipes/29-dnsid-message-board/src/internal/validation/room.go:12-35 | the runes counted in the UTF-8 of a text are its characters |
| `RoomText.CountedIsText` | recipes/29-dnsid-message-board/src/internal/validation/room.go:12-35 | whatever octets pass as UTF-8 are the UTF-8 of a text with as many characters as runes counted (sections 3 and 4 of RFC 3629) |
| `Validation.RoomKeyInjective` | recipes/29-dnsid-message-board/src/internal/validation/room.go:37-43 | accepted room IDs with one key are one ID, and the ID can be decoded from the key |
| `Base64Url.DecodeEncode` | recipes/29-dnsid-message-board/src/internal/validation/room.go:37-43 | unpadded base64url decodes back to its input (section 5 of RFC 4648) |
| `Base64Url.EncodeAlphabet` | recipes/29-dnsid-message-board/src/internal/validation/room.go:37-43 | encoded text is empty only for empty input and contains no `#` |
| `Base64Url.SplitGroups` | recipes/29-dnsid-message-board/src/internal/validation/room.go:37-43 | three octets are four digits of the same 24-bit number; one or two left over are two or three digits, filled with zero bits (section 4 of RFC 4648) |
| `Base64Url.SymbolIsInAlphabet` | recipes/29-dnsid-message-board/src/internal/validation/room.go:37-43 | the digits are written A-Z, a-z, 0-9, - and _ (section 5 of RFC 4648) |
| `Validation.Nickname` | recipes/29-dnsid-message-board/src/internal/validation/request.go:25-45 | accepts exactly the nicknames of 1 to 32 allowed characters with alphanumeric ends and returns them with their lower-cased key |
| `Validation.NicknameKeysCollide` | recipes/29-dnsid-message-board/src/internal/validation/request.go:25-45 | two nicknames share a key exactly when they differ in case alone; a key is its own key |
| `Validation.CanonicalDNSName` | recipes/29-dnsid-message-board/src/internal/validation/dnsname.go:10-56 | the method computes the specified canonical name or refuses, for any ToASCII |
| `Validation.CanonicalDNSNameShape` | recipes/29-dnsid-message-board/src/internal/validation/dnsname.go:10-56 | canonical names are at least two letter-digit-hyphen labels of 1 to 63 octets, at most 253 in all, without `#` (section 2.3.4 of RFC 1035) |
| `Validation.LabelsJoin` | recipes/29-dnsid-message-board/src/internal/validation/dnsname.go:27-49 | the labels checked are what lies between the dots: joined they are the name, and none contains a dot |
| `Validation.CanonicalDNSNameIdempotent` | recipes/29-dnsid-message-board/src/internal/validation/dnsname.go:10-56 | a canonical name is its own canonical name, for any deterministic ToASCII |
| `Board.CapabilitiesAgreeWithRoleMatrix` | recipes/29-dnsid-message-board/src/internal/board/types.go:142-190 | a role has the manage, post, read or connect capability exactly when the role matrix allows the action |
| `Board.RolePowers` | recipes/29-dnsid-message-board/src/internal/board/types.go:173-190 | which roles may read, post, rename, manage and connect |
| `Board.PageLimits` | recipes/29-dnsid-message-board/src/internal/board/types.go:192-203 | a page limit is 50 messages or 25 entries when none is given, at most 100, and otherwise as asked |
| `SnapshotAuthorization.AuthorizedMeansCheckPasses` | recipes/29-dnsid-message-board/src/internal/authorization/authorizer.go:19-44 | on a fresh snapshot LocalAuthorizer allows exactly what the store's own actor check passes with the snapshot's non-zero member version, apart from the archived flag and the owner rules |
| `SnapshotAuthorization.SuccessIsAuthorized` | recipes/29-dnsid-message-board/src/internal/store/memory.go:236-290 | any operation that takes effect is one LocalAuthorizer would allow on the very board it takes effect on |
| `SnapshotAuthorization.CommitIsAuthorized` | recipes/29-dnsid-message-board/src/internal/httpapi/server.go:247-292 | in every run, raced nickname changes included, a committing post, nickname change, grant or revocation finds its actor authorized at commit time |
| `SnapshotAuthorization.AllowlistUnchangedSinceSnapshot` | recipes/29-dnsid-message-board/src/internal/httpapi/server.go:361-428 | in every run, between a handler's room read and the commit of its grant or revocation the whole agent-to-role map is unchanged, whatever other clients did |
| `SnapshotAuthorization.GrantReplyExact` | recipes/29-dnsid-message-board/src/internal/store/dynamodb.go:310-366 | in every run a committed grant's reply is the specification's exactly when the target was absent or its stored version at commit is the one the client read; the version read is never ahead |
| `ReachableRaces.LaggingReplyReached` | recipes/29-dnsid-message-board/src/internal/store/dynamodb.go:310-366 | a run from the empty table in which the target renames itself between a grant's read and its commit: version 3 and the new nickname are stored, version 2 and no nickname are reported |
| `DynamoTable.KeyTextInjective` | recipes/29-dnsid-message-board/src/internal/store/dynamodb.go:947-959 | distinct structured keys render to distinct (PK, SK) texts |
| `DynamoTable.KeysAreSpelled` | recipes/29-dnsid-message-board/src/internal/store/dynamodb.go:947-959 | the prefixes of the key texts |
| `DynamoTable.WriteAllPointwise` | recipes/29-dnsid-message-board/src/internal/store/dynamodb.go:331-361 | with distinct keys a transaction changes each named item by its own action and no other item |
| `DynamoStore.ActorRolesAreRoleCan` | recipes/29-dnsid-message-board/src/internal/store/dynamodb.go:825-851 | the role list in the actor condition is the role matrix |
| `DynamoStore.TransactionKeysDistinct` | recipes/29-dnsid-message-board/src/internal/store/dynamodb.go:331-361 | no transaction the store builds names an item twice |
| `Refinement.RepresentationUnique` | recipes/29-dnsid-message-board/src/internal/store/dynamodb.go:896-940 | a table represents at most one board: same quotas, rooms, members, nicknames, records and sorted message lists; the same audit IDs, and for the same order of them the same audit log |
| `Refinement.GrantCommit` | recipes/29-dnsid-message-board/src/internal/store/dynamodb.go:331-361 | a committed grant transaction is the specification's grant on the represented room: same new room, same outcome kind, no other room touched |
| `Refinement.GrantGuardCommit` | recipes/29-dnsid-message-board/src/internal/store/dynamodb.go:607-616 | a committed check-only grant writes nothing and the specification grants nothing new either |
| `Refinement.RevokeCommit` | recipes/29-dnsid-message-board/src/internal/store/dynamodb.go:394-424 | a committed revocation is the specification's revocation, including the nickname item |
| `Refinement.NicknameCommit` | recipes/29-dnsid-message-board/src/internal/store/dynamodb.go:459-468 | a committed nickname transaction is the specification's nickname change when the member read is still current in its nickname key |
| `Refinement.MemberGuardCommit` | recipes/29-dnsid-message-board/src/internal/store/dynamodb.go:596-627 | a committed guard writes nothing and proves the room open and the actor allowed at that moment |
| `Refinement.PostCommit` | recipes/29-dnsid-message-board/src/internal/store/dynamodb.go:523-533 | a committed post is the specification's post: record and message inserted, both previously absent |
| `Refinement.CreateCommit` | recipes/29-dnsid-message-board/src/internal/store/dynamodb.go:108-156 | a committed creation adds the new room, owner, first audit entry and quota where none was; it is the specification's creation if the limit is at least 1 or the agent has a quota item |
| `TableEffects.CreateStored` | recipes/29-dnsid-message-board/src/internal/store/dynamodb.go:80-156 | a committed creation leaves META, owner and audit items where none were, with name, description, owner, time and token ID of the request, touches nothing else but the quota, and is answered with the stored room |
| `TableEffects.CreateCounted` | recipes/29-dnsid-message-board/src/internal/store/dynamodb.go:128-156 | the creator's quota item goes up by one from below the limit, or starts at one |
| `TableEffects.GrantStored` | recipes/29-dnsid-message-board/src/internal/store/dynamodb.go:310-361 | a committed grant leaves the target's item new or with role, capabilities, editor, time and version changed, bumps META, adds an audit item with actor, target, role and token ID, and touches nothing else |
| `TableEffects.GrantReplied` | recipes/29-dnsid-message-board/src/internal/store/dynamodb.go:303-366 | a grant is answered with the new entry, or the entry read with its role changed |
| `TableEffects.GuardStores` | recipes/29-dnsid-message-board/src/internal/store/dynamodb.go:577-627 | a grant of the role held, a nickname held, and a replay write nothing |
| `TableEffects.RevokeStored` | recipes/29-dnsid-message-board/src/internal/store/dynamodb.go:394-430 | a committed revocation deletes the target's item and its nickname item, bumps META, adds an audit item with actor, target and token ID, and touches nothing else |
| `TableEffects.NicknameStored` | recipes/29-dnsid-message-board/src/internal/store/dynamodb.go:459-478 | a committed nickname change leaves nickname and key of the request in the actor's item, moves the nickname item, touches nothing else, and is answered with the entry read, changed in the same way |
| `TableEffects.PostStored` | recipes/29-dnsid-message-board/src/internal/store/dynamodb.go:496-548 | a committed post leaves, where neither was, a MSG# item with author, nickname read, body, key, hash and time of the request and its IDEMP# item, touches nothing else, and is answered with that message |
| `RunInvariant.AuthorizedHasMembership` | recipes/29-dnsid-message-board/src/internal/httpapi/server.go:361-396 | an authorized snapshot carries the actor's membership, so the actor version sent to the store is at least 1 |
| `RunInvariant.CommitStep` | recipes/29-dnsid-message-board/src/internal/store/dynamodb.go:80-627 | any client's committing step leaves a table that represents the committed board, with the operation's outcome as its reply (a grant's up to versions, then exactly); it is the specification's operation unless it is a raced nickname change |
| `RunInvariant.RunKeeps` | recipes/29-dnsid-message-board/src/internal/store/dynamodb.go:80-627 | every run keeps the invariant: the table represents a consistent board, the nickname index is exact in every room without a raced change, what each client knows is true, and no two posts of one slot are both new |
| `TableHistory.AnswersSay` | recipes/29-dnsid-message-board/src/internal/httpapi/server.go:247-428 | in every run, a client told of success was told about its own request: its room text, its target and role, its nickname, its body or a message of its slot and hash |
| `TableHistory.PostedIsStored` | recipes/29-dnsid-message-board/src/internal/store/dynamodb.go:481-605 | the message a successful post was answered with is in the table under its ID, named by its slot's record |
| `TableHistory.CreatedIsStored` | recipes/29-dnsid-message-board/src/internal/store/dynamodb.go:80-156 | the room a successful creation was answered with is in the table, with the name, description, owner and creation time asked for |
| `TableHistory.RoomTextStays` | recipes/29-dnsid-message-board/src/internal/store/dynamodb.go:80-627 | once in the table, a room keeps name, description, owner and creation time for the rest of the run |
| `TableHistory.SnapshotsAreRead` | recipes/29-dnsid-message-board/src/internal/store/dynamodb.go:213-237 | room and membership a client was allowed by, its nickname included, were in the table at two moments of the run, in this order |
| `TableHistory.RetriesFindTheirBody` | recipes/29-dnsid-message-board/src/internal/httpapi/server.go:270-285 | where request hashes are an injective digest of the body, a retry is answered with a message of its own body |
| `CommitExactly.GrantExactly` | recipes/29-dnsid-message-board/src/internal/store/dynamodb.go:331-361 | with current reads a grant transaction passes if and only if the specification grants (and the audit ID is unused) |
| `CommitExactly.GrantGuardExactly` | recipes/29-dnsid-message-board/src/internal/store/dynamodb.go:303-309 | with current reads the check-only grant passes if and only if the specification accepts it |
| `CommitExactly.RevokeExactly` | recipes/29-dnsid-message-board/src/internal/store/dynamodb.go:394-424 | with current reads a revocation passes if and only if the specification revokes |
| `CommitExactly.NicknameExactly` | recipes/29-dnsid-message-board/src/internal/store/dynamodb.go:450-468 | with current reads a nickname change passes if and only if the specification makes it |
| `CommitExactly.PostExactly` | recipes/29-dnsid-message-board/src/internal/store/dynamodb.go:523-533 | a post with a fresh ID passes if and only if the specification posts and the key is unused |
| `CommitExactly.ReplayExactly` | recipes/29-dnsid-message-board/src/internal/store/dynamodb.go:577-605 | a replay's guard passes if and only if the specification answers the replay, with its message or a hash conflict |
| `CommitExactly.CreateExactly` | recipes/29-dnsid-message-board/src/internal/store/dynamodb.go:108-156 | a creation passes if and only if the specification creates the room |
| `CommitExactly.CreateAgreesExactly` | recipes/29-dnsid-message-board/src/internal/store/dynamodb.go:128-156 | the two stores agree on a creation if and only if the room limit is at least 1, the agent has a quota item, or the room exists |
| `CommitExactly.CommitsExactly` | recipes/29-dnsid-message-board/src/internal/store/dynamodb.go:276-548 | any client whose read is still current commits if and only if the specification succeeds on the represented board |
| `UndisturbedCalls.UndisturbedCall` | recipes/29-dnsid-message-board/src/internal/httpapi/server.go:247-428 | on any consistent table a handler's call that runs undisturbed - creations and unknown rooms included - ends within five table accesses with the answer an atomic store would give, reply or error code (an exhausted limit alone is coded differently), and leaves the operation's new board, or the same table after an error |
| `UndisturbedCalls.ReachableCallsAnswer` | recipes/29-dnsid-message-board/src/internal/httpapi/server.go:247-428 | that holds on every table any run can reach, for every validated request |
| `UndisturbedCalls.UnknownRoomCall` | recipes/29-dnsid-message-board/src/internal/httpapi/server.go:247-292 | a call for a room the board does not hold answers not-found and leaves the table alone |
| `BoardTheorems.Linearization` | recipes/29-dnsid-message-board/src/internal/store/dynamodb.go:80-627 | the table of every run represents a board that agrees with the one an atomic store reaches by executing the committed operations one after the other, in every room without a raced nickname change; without such a change the boards are equal |
| `BoardTheorems.CommitIsOneOperation` | recipes/29-dnsid-message-board/src/internal/store/dynamodb.go:80-627 | a committing step has the specification's new state and reports its outcome; a grant's reply equals it exactly when the versions are equal |
| `BoardTheorems.QuietStepChangesNothing` | recipes/29-dnsid-message-board/src/internal/store/dynamodb.go:976-1018 | in any state of the system a read, a failed condition or an unavailable table changes neither table nor board nor any other client |
| `BoardTheorems.ReachableTable` | recipes/29-dnsid-message-board/src/internal/store/dynamodb.go:331-424 | in every reachable table memberCount counts the MEMBER# items within the limit, exactly the META owner has role owner, version counts AUDIT# items, roomCount counts the rooms owned, within the limit or 1, and - without a raced change in the room - NICK# items are the inverse of the members' keys |
| `BoardTheorems.IdempotencyKeyInjective` | recipes/29-dnsid-message-board/src/internal/store/dynamodb.go:490-490 | agent and key can be read back from `agent#key` when agents contain no `#` |
| `BoardTheorems.ExactlyOnce` | recipes/29-dnsid-message-board/src/internal/store/dynamodb.go:481-605 | all successful posts of one room, agent and key carry one message and one request hash, and at most one reports it as new |
| `RefusedPosts.RefusedPostAnswers` | recipes/29-dnsid-message-board/src/internal/store/dynamodb.go:533-594 | on every reachable table, a post whose write was refused ends within five steps of its own, writing nothing: with the message stored in its slot, the conflict of another hash, or why it may not post - conflict exactly for a changed membership or a taken message ID, denial otherwise |
| `RefusedPosts.OtherRefusals` | recipes/29-dnsid-message-board/src/internal/store/dynamodb.go:976-1018 | every other refused transaction is answered as a conflict and changes nothing |
| `RefusedPosts.FaultAnswers` | recipes/29-dnsid-message-board/src/internal/store/dynamodb.go:976-1018 | a failed access is answered as such; only a transaction whose reply was lost may have had its effect |
| `RefusedPosts.EightSteps` | recipes/29-dnsid-message-board/src/internal/store/dynamodb.go:80-627 | in every run a client has its answer after at most eight steps of its own, whatever others do and whatever fails |
| `BoardTheorems.OneMessagePerKey` | recipes/29-dnsid-message-board/src/internal/store/dynamodb.go:481-548 | in every reachable table one room, author and key have at most one message |
| `BoardTheorems.AllowlistHistory` | recipes/29-dnsid-message-board/src/internal/store/dynamodb.go:331-424 | the first `version` audit entries folded give the roles as of that version, at every earlier moment of a run; equal versions mean equal allow-lists |
| `NicknameRace.NicknameLeaves` | recipes/29-dnsid-message-board/src/internal/store/dynamodb.go:739-798 | what any committed nickname transaction leaves, however old its read: only the actor's nickname fields, version and the two nickname items change, and its version and role were those read |
| `NicknameRace.NicknameCommitExactly` | recipes/29-dnsid-message-board/src/internal/store/dynamodb.go:739-798 | after a committed nickname transaction the index stays exact if and only if the member's key is the one read, or none was read and the key is already the new one |
| `RacedRooms.RacedMeansRevoked` | recipes/29-dnsid-message-board/src/internal/store/dynamodb.go:432-479 | a room counts as raced only if, between a client's read of its actor's membership and the commit of its nickname change, that actor was revoked there |
| `ReachableRaces.StaleNicknameReached` | recipes/29-dnsid-message-board/src/internal/store/dynamodb.go:432-479 | a run from the empty table (create, grant, promote, read to rename, revoke, grant, rename, commit the first rename) whose last table breaks the inverse of the NICK# items |
| `Paging.OffsetRoundTrip` | recipes/29-dnsid-message-board/src/internal/store/memory.go:518-539 | an issued cursor is never empty and decodes to its offset |
| `Paging.Search` | recipes/29-dnsid-message-board/src/internal/store/memory.go:464-470 | binary search over a sorted list returns the least index whose ID is greater than `after` |
| `Paging.AfterIsSuffix` | recipes/29-dnsid-message-board/src/internal/store/memory.go:464-471 | in a sorted list the messages after an ID are the rest from that index on |
| `Paging.PageIsStretch` | recipes/29-dnsid-message-board/src/internal/store/memory.go:448-486 | whatever a cursor decodes to, a page is at most `limit` consecutive messages of the room; only a bad cursor fails |
| `Paging.PageIsFull` | recipes/29-dnsid-message-board/src/internal/store/memory.go:448-486 | a first page holds the oldest messages after an ID, or the newest of all, as many as there are up to the limit; a page with a cursor holds exactly the limit |
| `Paging.CursorPage` | recipes/29-dnsid-message-board/src/internal/store/memory.go:448-486 | with a cursor the page goes on from its offset, or up to it |
| `Paging.CursorText` | recipes/29-dnsid-message-board/src/internal/store/memory.go:535-539 | a cursor is the offset's JSON text in base64url |
| `Paging.ForwardWalk` | recipes/29-dnsid-message-board/src/internal/store/memory.go:541-554 | pages followed forward while larger IDs arrive are the messages after `after`, each once and in order; a page without a cursor means all of them, and there are no more pages than messages |
| `Paging.BackwardWalk` | recipes/29-dnsid-message-board/src/internal/store/memory.go:472-485 | pages followed back from the end are the newest messages present at the first page, each once and in order, down to the oldest exactly when a page brings no cursor |
| `Paging.WalkGoesOn` | recipes/29-dnsid-message-board/src/internal/store/memory.go:518-554 | a walk that has not ended can always be continued with the cursor it was given |
| `TableQuery.RangeSelects` | recipes/29-dnsid-message-board/src/internal/store/dynamodb.go:654-669 | the key range of the query holds exactly the message items with ID greater than `after` in byte order |
| `TableQuery.ForwardPageAgrees` | recipes/29-dnsid-message-board/src/internal/store/dynamodb.go:654-661 | the first forward query page is MemoryStore's slice |
| `TableQuery.BackwardPageAgrees` | recipes/29-dnsid-message-board/src/internal/store/dynamodb.go:662-681 | the first backward query page, reversed, is MemoryStore's tail slice |
| `ReplayStore.FreshExactly` | recipes/30-agentcore-gateway-dnsid-oidc-orders/src/orders_interceptor/proof.py:45-46 | a proof is fresh exactly from one age before its timestamp to one age after it |
| `ReplayStore.ExpiryIsTight` | recipes/30-agentcore-gateway-dnsid-oidc-orders/src/orders_interceptor/proof.py:45-54 | a row taken within a proof's window expires one second after the window's end |
| `ReplayStore.AcceptedExactly` | recipes/30-agentcore-gateway-dnsid-oidc-orders/src/orders_interceptor/replay.py:15-19 | for any clock: a proof is accepted if and only if now lies between timestamp - age and timestamp + age and no proof with its nonce was accepted within whose window the clock has stayed since |
| `ReplayStore.PruningUnobservable` | recipes/30-agentcore-gateway-dnsid-oidc-orders/src/orders_interceptor/replay.py:15-19 | with a clock that does not go back the pruned store takes the decisions of a store that never forgets |
| `ReplayStore.AtMostOnce` | recipes/30-agentcore-gateway-dnsid-oidc-orders/src/orders_interceptor/replay.py:28-40 | a nonce is accepted again only after the window it was accepted for, under any deletions from expiry on and any faults |
| `ReplayStore.ClockGoesBack` | recipes/30-agentcore-gateway-dnsid-oidc-orders/src/orders_interceptor/replay.py:15-19 | with a clock that goes back a proof can be accepted twice |
| `ProofVerifier.Verifier.Verify` | recipes/30-agentcore-gateway-dnsid-oidc-orders/src/orders_interceptor/proof.py:31-57 | checks in the order of the code, then reserves the nonce: result and table as specified |
| `ProofVerifier.SignedActionAccepted` | recipes/30-agentcore-gateway-dnsid-oidc-orders/src/orders_interceptor/proof.py:31-57 | what an active agent signs is accepted exactly when it is complete, bound to the request, offered between timestamp - age and timestamp + age, both included, and unused |
| `ActionProof.DecodeEncode` | recipes/30-agentcore-gateway-dnsid-oidc-orders/src/orders_common/proof.py:33-47 | a payload survives encoding and decoding exactly when its strings are not empty |
| `ActionProof.DictEntries` | recipes/30-agentcore-gateway-dnsid-oidc-orders/src/orders_common/proof.py:33-47 | the signed dict has exactly the eight named fields with the payload's values |
| `ActionProof.ArgumentsHashBinds` | recipes/30-agentcore-gateway-dnsid-oidc-orders/src/orders_common/proof.py:29-30 | arguments hash alike in any key order and, under an injective digest, only then |
| `OrderRuns.ProtectedHeadersAreOwn` | recipes/30-agentcore-gateway-dnsid-oidc-orders/src/orders_interceptor/lambda_handler.py:74-86 | what the target reads under a protected name is the interceptor's value or nothing, whatever the caller sent in any spelling |
| `OrderRuns.OrdinaryHeadersPass` | recipes/30-agentcore-gateway-dnsid-oidc-orders/src/orders_interceptor/lambda_handler.py:74-78 | under any other name the target reads the caller's last value under any spelling of it, or nothing if none was sent |
| `OrderRuns.ProofExactly` | recipes/30-agentcore-gateway-dnsid-oidc-orders/src/orders_interceptor/lambda_handler.py:24-56 | a call has a proof to reserve if and only if it is a tool call with bearer claims of the configured subject and a verified payload bound to subject, audience, token ID, tool, arguments and session, offered at most one age before or after its timestamp, of an active signer |
| `OrderRuns.OrderAcceptedExactly` | recipes/30-agentcore-gateway-dnsid-oidc-orders/src/orders_target/lambda_handler.py:9-38 | from request to answer: an order is accepted if and only if its call has such a proof and reserves its nonce, the status passed on is active, a sentinel is configured and the order itself is good |
| `OrderRefusals.ClaimsRead` | recipes/30-agentcore-gateway-dnsid-oidc-orders/src/orders_interceptor/lambda_handler.py:142-154 | a claim counts when it is non-empty text; an audience also as the only element of a list |
| `OrderRefusals.ToolIsLastPart` | recipes/30-agentcore-gateway-dnsid-oidc-orders/src/orders_interceptor/lambda_handler.py:31-31 | the tool is what follows the last three underscores in a row, or the whole name |
| `OrderRefusals.StopsExactly` | recipes/30-agentcore-gateway-dnsid-oidc-orders/src/orders_interceptor/lambda_handler.py:24-46 | exactly which calls pass by, which are stopped with which code, and which come to their proof |
| `OrderRefusals.RejectedExactly` | recipes/30-agentcore-gateway-dnsid-oidc-orders/src/orders_interceptor/lambda_handler.py:55-73 | a rejected call gets its own ID and the code it was stopped for; at its proof, revocation exactly for a revoked signer of an otherwise bound proof, denial otherwise |
| `OrderRefusals.TargetAnswersExactly` | recipes/30-agentcore-gateway-dnsid-oidc-orders/src/orders_target/lambda_handler.py:9-38 | 403 exactly without sentinel and active status, 400 exactly for what is no order, else the order's own item, number and subject |
| `OrderRefusals.ProtectedValues` | recipes/30-agentcore-gateway-dnsid-oidc-orders/src/orders_interceptor/lambda_handler.py:74-86 | the target reads subject, status and sentinel under the interceptor's names exactly for a proved call, and never token or proof |
| `OrderRuns.AcceptedOrderIsProved` | recipes/30-agentcore-gateway-dnsid-oidc-orders/src/orders_target/lambda_handler.py:9-38 | an order is accepted only on a call whose own proof was verified, bound to subject, tool, arguments and session, fresh, active and newly reserved |
| `OrderRuns.BoundExactlyForObjects` | recipes/30-agentcore-gateway-dnsid-oidc-orders/src/orders_interceptor/lambda_handler.py:29-31 | the object an accepted order was read from is the one the proof was checked against if and only if params.arguments is an object |
| `UnboundOrders.TextArgumentsAreNotBound` | recipes/30-agentcore-gateway-dnsid-oidc-orders/src/orders_target/lambda_handler.py:16-23 | in any deployment, a whole tool call with a proof signed for no arguments and the text of an order as its arguments is forwarded, and the delivered event makes the target accept that order |
| `OrderRuns.OrderIsTheSignedOne` | recipes/30-agentcore-gateway-dnsid-oidc-orders/src/orders_interceptor/lambda_handler.py:47-54 | accepted sku and quantity are those of the arguments the proof was made for |
| `OrderRuns.OneOrderPerProof` | recipes/30-agentcore-gateway-dnsid-oidc-orders/src/orders_interceptor/lambda_handler.py:24-95 | over whole runs with a clock that does not go back no signed proof yields two accepted orders |
| `NonceStore.GrantedExactly` | recipes/32-cloudflare-workers/src/shared/replay.ts:18-23 | for any clock: a claim is granted if and only if no claim of its nonce was granted whose expiry the clock has not passed since |
| `NonceStore.AtMostOneGrant` | recipes/32-cloudflare-workers/src/shared/replay.ts:18-23 | among claims of one nonce with one expiry, made no later than it, at most one is granted, whatever else was claimed or purged |
| `NonceStore.SignersIndependent` | recipes/32-cloudflare-workers/src/ingress.ts:66-76 | a signature is admitted exactly when its signer's store, fed that signer's signatures alone, grants it |
| `NonceStore.SignatureOnce` | recipes/32-cloudflare-workers/src/ingress.ts:66-76 | over all traffic one signature is admitted at most once up to 305 seconds after its creation, in milliseconds |
| `NonceStore.AdmittedExactly` | recipes/32-cloudflare-workers/src/ingress.ts:66-76 | with a clock that does not go back a signature is admitted if and only if that window of every earlier admitted one of its signer and nonce is over: refused up to the last millisecond, free from the next |
| `CanonicalJson.CanonIdentifies` | recipes/30-agentcore-gateway-dnsid-oidc-orders/src/orders_common/proof.py:21-22 | two values have one sorted form exactly when they are equal up to key order |
| `CanonicalJson.PrintedKeysAscend` | recipes/30-agentcore-gateway-dnsid-oidc-orders/src/orders_common/proof.py:21-22 | the keys of a printed dict ascend: at the first difference the smaller code point, or the end, comes first |
| `CanonicalJson.TwoArePrinted` | recipes/30-agentcore-gateway-dnsid-oidc-orders/src/orders_common/proof.py:21-22 | commas between elements, colons after keys, no spaces, and the earlier key first whichever was there first |
| `CanonicalJson.CharIsWritten` | recipes/30-agentcore-gateway-dnsid-oidc-orders/src/orders_common/proof.py:21-22 | printable ASCII stands for itself, seven characters have short escapes, others a four-digit unit |
| `CanonicalJson.Hex4Reads` | recipes/30-agentcore-gateway-dnsid-oidc-orders/src/orders_common/proof.py:21-22 | a unit is four hexadecimal digits in small letters, the most significant first |
| `CanonicalJson.PairIsWritten` | recipes/30-agentcore-gateway-dnsid-oidc-orders/src/orders_common/proof.py:21-22 | characters beyond four digits are written as their surrogate pair |
| `CanonicalJson.EmitAscii` | recipes/30-agentcore-gateway-dnsid-oidc-orders/src/orders_common/proof.py:21-22 | the printed text is printable ASCII, so encoding it never fails |
| `JsonParsing.ValueRoundTrip` | recipes/30-agentcore-gateway-dnsid-oidc-orders/src/orders_common/proof.py:21-22 | parsing printed text gives the value back, whatever delimiter follows |
| `JsonParsing.PrintIdentifies` | recipes/30-agentcore-gateway-dnsid-oidc-orders/src/orders_common/proof.py:21-22 | canonical text is insensitive to key order and injective otherwise |
| `JsonParsing.LoadsPrint` | recipes/30-agentcore-gateway-dnsid-oidc-orders/src/orders_common/proof.py:37-38 | reading canonical text back gives the value with sorted keys |
| `StableJson.StableIsPrint` | recipes/12-a2a-dnsid/src/agent_card.py:143-156 | the stable text is the canonical text of the value without null-valued entries |
| `StableJson.DropsNullEntries` | recipes/12-a2a-dnsid/src/agent_card.py:143-156 | what is dropped from a dict is exactly its null entries; the others keep their cleaned values |
| `StableJson.DropsNoItems` | recipes/12-a2a-dnsid/src/agent_card.py:143-156 | lists keep their length and their nulls |
| `StableJson.StableIdentifies` | recipes/12-a2a-dnsid/src/agent_card.py:143-156 | two values have one stable text exactly when they are equal up to key order and null-valued entries |
| `TxtStrings.ParseCharacterStrings` | recipes/32-cloudflare-workers/src/shared/dns.ts:81-122 | the nested loops terminate on every input and compute the specified parse or its error |
| `TxtStrings.ParsePrinted` | recipes/32-cloudflare-workers/src/shared/dns.ts:81-122 | parsing inverts every printer that mixes raw characters, backslash escapes and \DDD up to 255, with any spacing (section 5.1 of RFC 1035) |
| `TxtStrings.Utf8Spells` | recipes/32-cloudflare-workers/src/shared/dns.ts:85-116 | raw characters become lead and continuation octets that spell their code point (section 3 of RFC 3629) |
| `TxtStrings.OctetsWrap` | recipes/32-cloudflare-workers/src/shared/dns.ts:97-116 | each octet is its number, or what is left of it above 255 |
| `TxtStrings.ParsesExactly` | recipes/32-cloudflare-workers/src/shared/dns.ts:97-116 | a quoted string is accepted exactly when it reads as written elements up to a closing quote, with their meaning |
| `TxtStrings.AcceptsExactly` | recipes/32-cloudflare-workers/src/shared/dns.ts:81-122 | the whole text is accepted exactly when it is quoted strings between spaces, and means what they mean |
| `TxtStrings.RefusesExactly` | recipes/32-cloudflare-workers/src/shared/dns.ts:81-122 | it is refused with each error exactly when, after quoted strings between spaces, it goes on with something else (malformed), an unclosed string (unterminated) or one ending in a backslash (dangling escape) |
| `TxtStrings.ParseQuoteAndJoin` | recipes/32-cloudflare-workers/test/e2e/worker-harness.ts:69-70 | parsing gives back the octets of every list of strings that was quoted and joined |
| `TxtStrings.ParseIdentifiesStrings` | recipes/32-cloudflare-workers/test/e2e/worker-harness.ts:69-70 | two lists of strings whose printed texts parse alike are the same list |

## Left out

- BoardTheorems.Linearization: assumes the room limit is at least 1, because the table's condition lets an agent without a quota item create a first room whatever the limit, and MemoryStore does not (CommitExactly.CreateAgreesExactly is the exact condition); rooms in which a raced nickname change has committed are compared with no atomic run, since ReachableRaces.StaleNicknameReached has none.
- BoardTheorems.CommitIsOneOperation: leaves out raced nickname changes, whose effect NicknameRace.NicknameLeaves states.
- UndisturbedCalls.ReachableCallsAnswer: leaves out nickname changes and revocations in rooms where a raced change has committed, because a leftover nickname item can make their conditions fail.
- MemoryStore.MemoryStore.PostMessage: requires a message ID not yet used in the room, where the program draws a fresh ULID.
- Paging.ForwardWalk: takes limits after clamping and lists of at most 2^63 - 1 messages, the range of a Go int.
- TableQuery.ForwardPageAgrees: the first page of the table only; the table's own continuation keys are not modelled.
- OrderRuns.OneOrderPerProof: the gateway is assumed to hand the target the forwarded headers and params.arguments, once.
- OrderRuns.OrdinaryHeadersPass: header values that are not strings, and sentinel comparison of non-ASCII text, are not modelled.
- TxtStrings.ParseCharacterStrings: gives each string's octets; decoding them to text with replacement characters or a byte order mark is not modelled, nor are lone surrogates in the input.
- CanonicalJson.Canon: no floats and no lone surrogates; dictionaries have string keys.
- Versions, counters and sequence numbers are unbounded integers; the program uses 64-bit ones.
- Times are integers; their RFC 3339 text in table items is not modelled.
- DynamoDB's request validation and its eventually consistent index; transactions are atomic and reads consistent.
- ListRooms and ListAllowlist, which page over the same slices; the polling loop of readMessages; the CRLF tolerance and JSON spellings of decoders beyond the `other` parameters.
- The nickname text stored beside the agent in a nickname item, and item type and schema version attributes, which no operation reads back.
- Rooms are never archived by any modelled operation; the archived checks are modelled all the same.
- The Cedar policy authorizer, token verification, HTTP routing, request bodies and status codes.
- Replay reservations take whole seconds, as the verifier passes them.
- The freshness check inside the HTTP signature library before a nonce is claimed; NonceStore states what holds for claims made no later than the expiry.
- The plumbing store, identity scanner, ledger, deploy scripts, images, pages and agent glue of the other recipes.
