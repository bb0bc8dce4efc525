/** One-use nonces of recipe 30 (orders_interceptor/replay.py): a store that forgets, and when it may. */
module ReplayStore {
  import opened Board

  type Rows = map<string, int>

  // Rows that disappear before a reservation: all expired ones, or whichever expired ones DynamoDB got to.
  datatype Deletion = Everything | Only(nonces: set<string>)

  // A table call can fail without effect, or take effect and lose its reply.
  datatype StoreFault = Fine | Down | Lost

  function Kept(rows: Rows, deletion: Deletion, now: int): Rows {
    map nonce | nonce in rows && !(rows[nonce] <= now && (deletion == Everything || nonce in deletion.nonces))
      :: rows[nonce]
  }

  function Reserving(rows: Rows, deletion: Deletion, fault: StoreFault, nonce: string, ttl: int, now: int)
    : (Rows, bool)
  {
    var kept := Kept(rows, deletion, now);
    if fault == Down || nonce in kept then (kept, false)
    else (kept[nonce := now + ttl], fault == Fine)
  }

  class MemoryReplayStore {
    var seen: Rows

    constructor ()
      ensures seen == map[]
    {
      seen := map[];
    }

    method Reserve(nonce: string, ttl: int, now: int) returns (reserved: bool)
      modifies this
      ensures (seen, reserved) == Reserving(old(seen), Everything, Fine, nonce, ttl, now)
      ensures reserved <==> !(nonce in old(seen) && now < old(seen)[nonce])
      ensures forall other :: other in seen <==> other == nonce || (other in old(seen) && now < old(seen)[other])
      ensures forall other :: other in seen ==>
                seen[other] == if reserved && other == nonce then now + ttl else old(seen)[other]
    {
      seen := map key | key in seen && seen[key] > now :: seen[key];
      assert seen == Kept(old(seen), Everything, now);
      if nonce in seen { return false; }
      seen := seen[nonce := now + ttl];
      return true;
    }
  }

  // The deployed store: rows leave the table by themselves at some moment from expires_at on.
  class DynamoReplayStore {
    var rows: Rows

    constructor ()
      ensures rows == map[]
    {
      rows := map[];
    }

    // One conditional put, on the rows that are still there.
    method Reserve(nonce: string, ttl: int, now: int, deletion: Deletion, fault: StoreFault)
      returns (reserved: bool)
      modifies this
      ensures (rows, reserved) == Reserving(old(rows), deletion, fault, nonce, ttl, now)
      ensures fault != Down ==> nonce in rows
      ensures fault != Fine ==> !reserved
      ensures nonce !in old(rows) ==> reserved == (fault == Fine)
      ensures reserved ==> rows[nonce] == now + ttl
      ensures reserved && nonce in old(rows) ==> old(rows)[nonce] <= now
      ensures forall other :: other in old(rows) && now < old(rows)[other] ==>
                other in rows && rows[other] == old(rows)[other]
      ensures forall other :: other in rows && other != nonce ==> other in old(rows) && rows[other] == old(rows)[other]
    {
      rows := Kept(rows, deletion, now);
      if fault == Down { return false; }
      if nonce in rows { return false; }
      rows := rows[nonce := now + ttl];
      return fault == Fine;
    }
  }

  // ---------------------------------------------------------------- Freshness and expiry

  predicate Fresh(maxAge: int, timestamp: int, now: int) {
    var distance := if now < timestamp then timestamp - now else now - timestamp;
    distance <= maxAge
  }

  function Ttl(maxAge: int, timestamp: int, now: int): int {
    var remaining := timestamp + maxAge - now + 1;
    if remaining < 1 then 1 else remaining
  }

  // The moments at which a proof may be offered, in the terms of the clock.
  predicate InWindow(maxAge: int, timestamp: int, now: int) {
    timestamp - maxAge <= now <= timestamp + maxAge
  }

  // A proof is fresh from one age before its timestamp to one age after it, both included.
  lemma FreshExactly(maxAge: int, timestamp: int, now: int)
    ensures Fresh(maxAge, timestamp, now) <==> InWindow(maxAge, timestamp, now)
  {
  }

  // A row taken for a proof in its window expires one second after the window's end: never earlier, never later.
  lemma ExpiryIsTight(maxAge: int, timestamp: int, now: int)
    requires InWindow(maxAge, timestamp, now)
    ensures now + Ttl(maxAge, timestamp, now) == timestamp + maxAge + 1
    ensures forall later :: later >= now && !InWindow(maxAge, timestamp, later) <==>
              later >= now + Ttl(maxAge, timestamp, now)
  {
  }

  // ---------------------------------------------------------------- Runs

  // One proof that has passed every check up to freshness, offered at `now`.
  datatype Attempt = Attempt(nonce: string, timestamp: int, now: int, deletion: Deletion, fault: StoreFault)

  function Try(maxAge: int, rows: Rows, a: Attempt): (Rows, bool) {
    if !Fresh(maxAge, a.timestamp, a.now) then (rows, false)
    else Reserving(rows, a.deletion, a.fault, a.nonce, Ttl(maxAge, a.timestamp, a.now), a.now)
  }

  function RowsAfter(maxAge: int, attempts: seq<Attempt>): Rows {
    if attempts == [] then map[]
    else Try(maxAge, RowsAfter(maxAge, attempts[..|attempts| - 1]), attempts[|attempts| - 1]).0
  }

  predicate Accepted(maxAge: int, attempts: seq<Attempt>, i: nat)
    requires i < |attempts|
  {
    Try(maxAge, RowsAfter(maxAge, attempts[..i]), attempts[i]).1
  }

  function LastMoment(maxAge: int, a: Attempt): int {
    a.timestamp + maxAge
  }

  // The clock, as the store sees it, has not passed attempt j's window since.
  predicate Undisturbed(maxAge: int, attempts: seq<Attempt>, j: nat)
    requires j < |attempts|
  {
    forall k :: j < k < |attempts| && InWindow(maxAge, attempts[k].timestamp, attempts[k].now) ==>
      attempts[k].now <= LastMoment(maxAge, attempts[j])
  }

  predicate Remembered(maxAge: int, attempts: seq<Attempt>, j: nat)
    requires j < |attempts|
  {
    Accepted(maxAge, attempts, j) && Undisturbed(maxAge, attempts, j)
  }

  predicate InMemory(attempts: seq<Attempt>) {
    forall i :: 0 <= i < |attempts| ==> attempts[i].deletion == Everything && attempts[i].fault == Fine
  }

  lemma PrefixAccepted(maxAge: int, attempts: seq<Attempt>, n: nat, j: nat)
    requires j < n <= |attempts|
    ensures Accepted(maxAge, attempts[..n], j) == Accepted(maxAge, attempts, j)
  {
    assert attempts[..n][..j] == attempts[..j];
  }

  lemma RememberedBefore(maxAge: int, attempts: seq<Attempt>, j: nat)
    requires j + 1 < |attempts|
    ensures var last := attempts[|attempts| - 1];
            Remembered(maxAge, attempts, j) <==>
            Remembered(maxAge, attempts[..|attempts| - 1], j)
            && (InWindow(maxAge, last.timestamp, last.now) ==> last.now <= LastMoment(maxAge, attempts[j]))
  {
    hide Fresh, InWindow, Accepted;
    var n := |attempts| - 1;
    PrefixAccepted(maxAge, attempts, n, j);
    if Undisturbed(maxAge, attempts, j) {
      forall k | j < k < n && InWindow(maxAge, attempts[k].timestamp, attempts[k].now)
        ensures attempts[..n][k].now <= LastMoment(maxAge, attempts[..n][j])
      {
      }
    }
    if Undisturbed(maxAge, attempts[..n], j) {
      forall k | j < k < n && InWindow(maxAge, attempts[k].timestamp, attempts[k].now)
        ensures attempts[k].now <= LastMoment(maxAge, attempts[j])
      {
        assert attempts[..n][k] == attempts[k];
      }
    }
  }

  // Whatever rows are deleted from their expiry on, a proof that was accepted stays in the table as long as
  // the clock has not passed its window.
  lemma {:induction false} RememberedHasRow(maxAge: int, attempts: seq<Attempt>, j: nat)
    requires j < |attempts| && Remembered(maxAge, attempts, j)
    ensures var rows := RowsAfter(maxAge, attempts);
            attempts[j].nonce in rows && rows[attempts[j].nonce] == LastMoment(maxAge, attempts[j]) + 1
    decreases |attempts|
  {
    var init, last := attempts[..|attempts| - 1], attempts[|attempts| - 1];
    if j == |attempts| - 1 {
      ExpiryIsTight(maxAge, last.timestamp, last.now);
    } else {
      RememberedBefore(maxAge, attempts, j);
      RememberedHasRow(maxAge, init, j);
    }
  }

  // In memory a row means nothing else: some accepted proof whose window the clock has not passed.
  lemma {:induction false} RowIsRemembered(maxAge: int, attempts: seq<Attempt>, nonce: string) returns (j: nat)
    requires InMemory(attempts) && nonce in RowsAfter(maxAge, attempts)
    ensures j < |attempts| && Remembered(maxAge, attempts, j) && attempts[j].nonce == nonce
    decreases |attempts|
  {
    var init, last := attempts[..|attempts| - 1], attempts[|attempts| - 1];
    var before := RowsAfter(maxAge, init);
    if Accepted(maxAge, attempts, |attempts| - 1) && last.nonce == nonce {
      j := |attempts| - 1;
    } else {
      assert nonce in before;
      j := RowIsRemembered(maxAge, init, nonce);
      RememberedHasRow(maxAge, init, j);
      RememberedBefore(maxAge, attempts, j);
    }
  }

  // Exactly when the in-memory store accepts, for any clock: the proof is fresh, and no proof with this nonce
  // was accepted before within whose window the clock has stayed since.
  lemma AcceptedExactly(maxAge: int, attempts: seq<Attempt>, i: nat)
    requires InMemory(attempts) && i < |attempts|
    ensures Accepted(maxAge, attempts, i) <==>
            && InWindow(maxAge, attempts[i].timestamp, attempts[i].now)
            && !exists j :: 0 <= j < i && attempts[j].nonce == attempts[i].nonce
                            && Remembered(maxAge, attempts[..i], j)
                            && attempts[i].now <= LastMoment(maxAge, attempts[j])
  {
    var earlier, a := attempts[..i], attempts[i];
    var rows := RowsAfter(maxAge, earlier);
    if a.nonce in rows {
      var j := RowIsRemembered(maxAge, earlier, a.nonce);
      RememberedHasRow(maxAge, earlier, j);
      assert attempts[j] == earlier[j];
      forall k | 0 <= k < i && attempts[k].nonce == a.nonce && Remembered(maxAge, earlier, k)
        ensures LastMoment(maxAge, attempts[k]) == LastMoment(maxAge, attempts[j])
      {
        RememberedHasRow(maxAge, earlier, k);
      }
    } else {
      forall k | 0 <= k < i && attempts[k].nonce == a.nonce ensures !Remembered(maxAge, earlier, k) {
        if Remembered(maxAge, earlier, k) { RememberedHasRow(maxAge, earlier, k); }
      }
    }
  }

  // ---------------------------------------------------------------- The clock does not go back

  predicate Monotone(attempts: seq<Attempt>) {
    forall i, j :: 0 <= i < j < |attempts| ==> attempts[i].now <= attempts[j].now
  }

  lemma StillRemembered(maxAge: int, attempts: seq<Attempt>, j: nat, i: nat)
    requires Monotone(attempts) && j < i < |attempts| && Accepted(maxAge, attempts, j)
    requires attempts[i].now <= LastMoment(maxAge, attempts[j])
    ensures Remembered(maxAge, attempts[..i], j)
  {
    PrefixAccepted(maxAge, attempts, i, j);
  }

  // Under either store, with faults and deletions at any moment from expiry on: a nonce is accepted again only
  // after the window of the proof it was accepted with has closed - so no proof is accepted twice.
  lemma AtMostOnce(maxAge: int, attempts: seq<Attempt>, j: nat, i: nat)
    requires Monotone(attempts) && j < i < |attempts|
    requires Accepted(maxAge, attempts, j) && Accepted(maxAge, attempts, i)
    requires attempts[j].nonce == attempts[i].nonce
    ensures attempts[i].now > attempts[j].timestamp + maxAge
    ensures attempts[i].timestamp != attempts[j].timestamp
  {
    if attempts[i].now <= LastMoment(maxAge, attempts[j]) {
      StillRemembered(maxAge, attempts, j, i);
      RememberedHasRow(maxAge, attempts[..i], j);
    }
  }

  // A store that never forgets: it refuses a nonce while any proof accepted with it could still be fresh.
  datatype LogEntry = LogEntry(nonce: string, timestamp: int)

  predicate IdealAccepts(maxAge: int, log: seq<LogEntry>, a: Attempt) {
    && InWindow(maxAge, a.timestamp, a.now)
    && forall k :: 0 <= k < |log| && log[k].nonce == a.nonce ==> a.now > log[k].timestamp + maxAge
  }

  function IdealLog(maxAge: int, attempts: seq<Attempt>): seq<LogEntry> {
    if attempts == [] then []
    else
      var log, last := IdealLog(maxAge, attempts[..|attempts| - 1]), attempts[|attempts| - 1];
      if IdealAccepts(maxAge, log, last) then log + [LogEntry(last.nonce, last.timestamp)] else log
  }

  predicate Logged(maxAge: int, attempts: seq<Attempt>, entry: LogEntry) {
    exists j :: 0 <= j < |attempts| && Accepted(maxAge, attempts, j)
                && entry == LogEntry(attempts[j].nonce, attempts[j].timestamp)
  }

  lemma LoggedGrows(maxAge: int, attempts: seq<Attempt>, n: nat, entry: LogEntry)
    requires n + 1 == |attempts|
    ensures Logged(maxAge, attempts, entry) <==>
            || Logged(maxAge, attempts[..n], entry)
            || (Accepted(maxAge, attempts, n) && entry == LogEntry(attempts[n].nonce, attempts[n].timestamp))
  {
    hide Accepted;
    forall j | 0 <= j < n ensures Accepted(maxAge, attempts[..n], j) == Accepted(maxAge, attempts, j) {
      PrefixAccepted(maxAge, attempts, n, j);
    }
    if Logged(maxAge, attempts, entry) {
      var j :| 0 <= j < |attempts| && Accepted(maxAge, attempts, j)
               && entry == LogEntry(attempts[j].nonce, attempts[j].timestamp);
      if j < n { assert attempts[..n][j] == attempts[j]; }
    }
    if Logged(maxAge, attempts[..n], entry) {
      var j :| 0 <= j < n && Accepted(maxAge, attempts[..n], j)
               && entry == LogEntry(attempts[..n][j].nonce, attempts[..n][j].timestamp);
      assert attempts[..n][j] == attempts[j];
    }
  }

  // Pruning is unobservable: the in-memory store and the one that never forgets take the same decisions.
  lemma {:induction false} PruningUnobservable(maxAge: int, attempts: seq<Attempt>)
    requires InMemory(attempts) && Monotone(attempts)
    ensures forall entry :: entry in IdealLog(maxAge, attempts) <==> Logged(maxAge, attempts, entry)
    ensures forall i :: 0 <= i < |attempts| ==>
              (Accepted(maxAge, attempts, i) <==> IdealAccepts(maxAge, IdealLog(maxAge, attempts[..i]), attempts[i]))
    decreases |attempts|
  {
    hide Accepted, IdealAccepts, Logged;
    if attempts != [] {
      var n := |attempts| - 1;
      var init := attempts[..n];
      PruningUnobservable(maxAge, init);
      forall i | 0 <= i < n
        ensures Accepted(maxAge, attempts, i) <==>
                IdealAccepts(maxAge, IdealLog(maxAge, attempts[..i]), attempts[i])
      {
        PrefixAccepted(maxAge, attempts, n, i);
        assert init[..i] == attempts[..i] && init[i] == attempts[i];
      }
      SameDecision(maxAge, attempts, n);
      forall entry ensures entry in IdealLog(maxAge, attempts) <==> Logged(maxAge, attempts, entry) {
        LoggedGrows(maxAge, attempts, n, entry);
      }
    } else {
      NothingLogged(maxAge, attempts);
    }
  }

  lemma NothingLogged(maxAge: int, attempts: seq<Attempt>)
    requires attempts == []
    ensures forall entry :: !Logged(maxAge, attempts, entry)
  {
  }

  lemma SameDecision(maxAge: int, attempts: seq<Attempt>, i: nat)
    requires InMemory(attempts) && Monotone(attempts) && i < |attempts|
    requires forall entry :: entry in IdealLog(maxAge, attempts[..i]) <==> Logged(maxAge, attempts[..i], entry)
    ensures Accepted(maxAge, attempts, i) <==> IdealAccepts(maxAge, IdealLog(maxAge, attempts[..i]), attempts[i])
  {
    hide IdealLog;
    var log, a, earlier := IdealLog(maxAge, attempts[..i]), attempts[i], attempts[..i];
    AcceptedExactly(maxAge, attempts, i);
    hide Fresh, InWindow;
    if Accepted(maxAge, attempts, i) {
      hide Accepted;
      forall k | 0 <= k < |log| && log[k].nonce == a.nonce ensures a.now > log[k].timestamp + maxAge {
        assert Logged(maxAge, earlier, log[k]);
        var j :| 0 <= j < i && Accepted(maxAge, earlier, j)
                 && log[k] == LogEntry(earlier[j].nonce, earlier[j].timestamp);
        PrefixAccepted(maxAge, attempts, i, j);
        if a.now <= LastMoment(maxAge, attempts[j]) { StillRemembered(maxAge, attempts, j, i); }
      }
    } else if InWindow(maxAge, a.timestamp, a.now) {
      hide Accepted;
      var j :| 0 <= j < i && attempts[j].nonce == a.nonce && Remembered(maxAge, earlier, j)
               && a.now <= LastMoment(maxAge, attempts[j]);
      var entry := LogEntry(earlier[j].nonce, earlier[j].timestamp);
      assert Logged(maxAge, earlier, entry);
      assert entry in log;
    }
  }

  // With a clock that goes back, a proof can be accepted twice: another reservation in between pruned its row.
  lemma ClockGoesBack()
    ensures var attempts := [
              Attempt("a", 0, 0, Everything, Fine),
              Attempt("b", 301, 301, Everything, Fine),
              Attempt("a", 0, 300, Everything, Fine)];
            Accepted(300, attempts, 0) && Accepted(300, attempts, 2)
  {
    var first := Attempt("a", 0, 0, Everything, Fine);
    var second := Attempt("b", 301, 301, Everything, Fine);
    var attempts := [first, second, Attempt("a", 0, 300, Everything, Fine)];
    assert attempts[..0] == [] && attempts[..1] == [first] && attempts[..2] == [first, second];
    assert [first][..0] == [] && [first, second][..1] == [first];
    assert RowsAfter(300, [first]) == map["a" := 301];
    assert RowsAfter(300, [first, second]) == map["b" := 602];
  }
}
