/** Rooms count as raced only for the one race there is: a nickname change around a revocation of its own actor. */
module RacedRooms {
  import opened Bytes
  import opened Board
  import opened BoardSpec
  import opened DynamoTable
  import opened DynamoStore
  import opened Interleaving
  import opened RunInvariant
  import opened TableHistory
  import Base64Url

  // Move k is a client's commit.
  predicate CommitsAt(limits: Limits, moves: seq<Move>, k: nat) {
    && k < |moves| && moves[k].Act?
    && var s := Run(limits, moves[..k]);
       moves[k].id in s.clients && Commits(limits, s.table, s.clients[moves[k].id], moves[k].choice)
  }

  // Move k takes an agent off a room's allow-list.
  predicate RevokesAt(limits: Limits, moves: seq<Move>, k: nat, roomKey: Str, agent: Str) {
    && CommitsAt(limits, moves, k)
    && var c := Run(limits, moves[..k]).clients[moves[k].id];
       c.Writing? && c.req.RevokeRequest? && Base64Url.Encode(c.req.roomID) == roomKey && c.req.target == agent
  }

  // Move k is the commit of a client's nickname change.
  predicate RenamesAt(limits: Limits, moves: seq<Move>, k: nat, id: nat, roomKey: Str, agent: Str) {
    && CommitsAt(limits, moves, k) && moves[k].id == id
    && var c := Run(limits, moves[..k]).clients[id];
       c.Writing? && c.req.NicknameRequest? && c.actor == agent && Base64Url.Encode(c.req.roomID) == roomKey
  }

  // Move k reads the membership a client is allowed by.
  predicate ReadsMemberAt(limits: Limits, moves: seq<Move>, k: nat, id: nat) {
    && k < |moves| && moves[k].Act? && moves[k].id == id
    && id in Run(limits, moves[..k]).clients && Run(limits, moves[..k]).clients[id].GotRoom?
  }

  // What a client has noted it has noted when it read its actor's membership.
  ghost predicate NoteTaken(limits: Limits, moves: seq<Move>, id: nat, c: Client, note: Note) {
    HasSnapshot(c) ==>
      exists k: nat :: ReadsMemberAt(limits, moves, k, id)
                       && note.revocations == Run(limits, moves[..k]).revoked[(Base64Url.Encode(c.req.roomID), c.actor)]
  }

  lemma NoteStays(limits: Limits, moves: seq<Move>, move: Move, id: nat, c: Client, note: Note, c': Client, note': Note)
    requires NoteTaken(limits, moves, id, c, note) && c'.actor == c.actor && c'.req == c.req
    requires HasSnapshot(c') ==> HasSnapshot(c) && note'.revocations == note.revocations
    ensures NoteTaken(limits, moves + [move], id, c', note')
  {
    hide Run, Base64Url.Encode;
    var longer := moves + [move];
    if HasSnapshot(c') {
      var k: nat :| ReadsMemberAt(limits, moves, k, id)
                    && note.revocations
                       == Run(limits, moves[..k]).revoked[(Base64Url.Encode(c.req.roomID), c.actor)];
      assert longer[..k] == moves[..k];
      assert ReadsMemberAt(limits, longer, k, id);
    }
  }

  lemma NoteOfStep(s: System, c: Client, note: Note)
    ensures c.GotRoom? ==> NoteAfter(s, c, note).revocations == s.revoked[(Base64Url.Encode(c.req.roomID), c.actor)]
    ensures !c.GotRoom? ==> NoteAfter(s, c, note).revocations == note.revocations
  {
  }

  lemma {:induction false} NotesAreTaken(limits: Limits, moves: seq<Move>, id: nat)
    requires AdmissibleRun(limits, moves) && id in Run(limits, moves).clients
    ensures id in Run(limits, moves).notes
    ensures NoteTaken(limits, moves, id, Run(limits, moves).clients[id], Run(limits, moves).notes[id])
  {
    hide Step, Commits, BoardAfter, AuditIDsAfter, RevokedAfter, RacedAfter, NoteAfter, Validated, NoteTaken,
      Base64Url.Encode;
    if moves != [] {
      var earlier, move := moves[..|moves| - 1], moves[|moves| - 1];
      var s := Run(limits, earlier);
      assert moves == earlier + [move];
      if id in s.clients { NotesAreTaken(limits, earlier, id); }
      if move.Act? && move.id == id {
        NoteStep(limits, earlier, move, s.clients[id], s.notes[id]);
      } else if id in s.clients {
        NoteStays(limits, earlier, move, id, s.clients[id], s.notes[id], s.clients[id], s.notes[id]);
      } else {
        NothingNoted(limits, moves, id, Run(limits, moves).clients[id], Run(limits, moves).notes[id]);
      }
    }
  }

  lemma NothingNoted(limits: Limits, moves: seq<Move>, id: nat, c: Client, note: Note)
    requires c.Ready?
    ensures NoteTaken(limits, moves, id, c, note)
  {
  }

  lemma NoteStep(limits: Limits, moves: seq<Move>, move: Move, c: Client, note: Note)
    requires move.Act? && move.id in Run(limits, moves).clients && c == Run(limits, moves).clients[move.id]
    requires NoteTaken(limits, moves, move.id, c, note)
    ensures var s := Run(limits, moves);
            NoteTaken(
              limits, moves + [move], move.id, Step(limits, s.table, c, move.choice).1, NoteAfter(s, c, note))
  {
    hide Run, Base64Url.Encode, Step, NoteAfter;
    var s := Run(limits, moves);
    var c' := Step(limits, s.table, c, move.choice).1;
    StepSnapshot(limits, s.table, c, move.choice);
    NoteOfStep(s, c, note);
    var n, longer := |moves|, moves + [move];
    if HasSnapshot(c') && !HasSnapshot(c) {
      assert longer[..n] == moves;
      assert ReadsMemberAt(limits, longer, n, move.id);
    } else {
      NoteStays(limits, moves, move, move.id, c, note, c', NoteAfter(s, c, note));
    }
  }

  // Counts of revocations differ only because of a revocation in between.
  lemma {:induction false} RevokedBetween(limits: Limits, moves: seq<Move>, k: nat, roomKey: Str, agent: Str)
    returns (j: nat)
    requires k <= |moves|
    requires Run(limits, moves[..k]).revoked[(roomKey, agent)] != Run(limits, moves).revoked[(roomKey, agent)]
    ensures k <= j < |moves| && RevokesAt(limits, moves, j, roomKey, agent)
    decreases |moves|
  {
    hide Step, Commits, BoardAfter, AuditIDsAfter, RacedAfter, NoteAfter, Base64Url.Encode;
    assert moves[..|moves|] == moves;
    var earlier, move := moves[..|moves| - 1], moves[|moves| - 1];
    assert earlier[..k] == moves[..k];
    if Run(limits, moves[..k]).revoked[(roomKey, agent)] != Run(limits, earlier).revoked[(roomKey, agent)] {
      j := RevokedBetween(limits, earlier, k, roomKey, agent);
      assert earlier[..j] == moves[..j];
    } else {
      j := |moves| - 1;
    }
  }

  // A room counts as raced only if some client's nickname change has committed in it although its actor was revoked
  // there after the client had read the actor's membership, and before that commit.
  lemma {:induction false} RacedMeansRevoked(limits: Limits, moves: seq<Move>, roomKey: Str)
    returns (i: nat, j: nat, k: nat, id: nat, agent: Str)
    requires AdmissibleRun(limits, moves) && roomKey in Run(limits, moves).raced
    ensures i < j < k < |moves| && ReadsMemberAt(limits, moves, i, id)
    ensures RevokesAt(limits, moves, j, roomKey, agent) && RenamesAt(limits, moves, k, id, roomKey, agent)
    decreases |moves|
  {
    hide Step, Commits, BoardAfter, AuditIDsAfter, RevokedAfter, NoteAfter, Base64Url.Encode, Validated;
    var n := |moves| - 1;
    var earlier, move := moves[..n], moves[n];
    var s := Run(limits, earlier);
    if roomKey in s.raced {
      i, j, k, id, agent := RacedMeansRevoked(limits, earlier, roomKey);
      assert earlier[..i] == moves[..i] && earlier[..j] == moves[..j] && earlier[..k] == moves[..k];
    } else {
      k, id := n, move.id;
      i, j, agent := RevokedSinceRead(limits, earlier, id);
      assert earlier[..i] == moves[..i] && earlier[..j] == moves[..j] && moves[..k] == earlier;
    }
  }

  lemma RevokedSinceRead(limits: Limits, moves: seq<Move>, id: nat) returns (i: nat, j: nat, agent: Str)
    requires AdmissibleRun(limits, moves) && id in Run(limits, moves).clients && id in Run(limits, moves).notes
    requires var s := Run(limits, moves); Disturbed(s, s.notes[id], s.clients[id])
    ensures var c := Run(limits, moves).clients[id];
            && agent == c.actor && i < j < |moves| && ReadsMemberAt(limits, moves, i, id)
            && RevokesAt(limits, moves, j, Base64Url.Encode(c.req.roomID), agent)
  {
    hide Run, AdmissibleRun, Base64Url.Encode, RevokesAt;
    var s := Run(limits, moves);
    var c := s.clients[id];
    var roomKey := Base64Url.Encode(c.req.roomID);
    agent := c.actor;
    NotesAreTaken(limits, moves, id);
    var r: nat :| ReadsMemberAt(limits, moves, r, id)
                  && s.notes[id].revocations == Run(limits, moves[..r]).revoked[(roomKey, agent)];
    i := r;
    j := RevokedBetween(limits, moves, i, roomKey, agent);
    if j == i { ReadIsNoRevocation(limits, moves, i, id, roomKey, agent); }
  }

  lemma ReadIsNoRevocation(limits: Limits, moves: seq<Move>, k: nat, id: nat, roomKey: Str, agent: Str)
    requires ReadsMemberAt(limits, moves, k, id)
    ensures !RevokesAt(limits, moves, k, roomKey, agent)
  {
    hide Run, Commits;
  }
}
