/** The nonce store of recipe 32 (shared/replay.ts) and how the ingress uses it (ingress.ts). */
module NonceStore {
  import opened Board

  type Seen = map<string, int>

  // One row per nonce; times in Unix milliseconds.
  function Unexpired(seen: Seen, now: int): Seen {
    map nonce | nonce in seen && !(seen[nonce] < now) :: seen[nonce]
  }

  function Claiming(seen: Seen, nonce: string, expiresAtMs: int, now: int): (Seen, bool) {
    var kept := Unexpired(seen, now);
    if nonce in kept then (kept, false) else (kept[nonce := expiresAtMs], true)
  }

  class Store {
    var seen: Seen

    constructor ()
      ensures seen == map[]
    {
      seen := map[];
    }

    // DELETE of the expired rows, then INSERT OR IGNORE.
    method Claim(nonce: string, expiresAtMs: int, now: int) returns (fresh_: bool)
      modifies this
      ensures (seen, fresh_) == Claiming(old(seen), nonce, expiresAtMs, now)
      ensures fresh_ <==> !(nonce in old(seen) && now <= old(seen)[nonce])
      ensures forall other :: other in seen <==> other == nonce || (other in old(seen) && now <= old(seen)[other])
      ensures forall other :: other in seen ==>
                seen[other] == if fresh_ && other == nonce then expiresAtMs else old(seen)[other]
    {
      seen := map key | key in seen && !(seen[key] < now) :: seen[key];
      assert seen == Unexpired(old(seen), now);
      fresh_ := nonce !in seen;
      if fresh_ { seen := seen[nonce := expiresAtMs]; }
    }
  }

  // ---------------------------------------------------------------- Runs of one store

  datatype Claim = Claim(nonce: string, expiresAtMs: int, now: int)

  function SeenAfter(claims: seq<Claim>): Seen {
    if claims == [] then map[]
    else
      var last := claims[|claims| - 1];
      Claiming(SeenAfter(claims[..|claims| - 1]), last.nonce, last.expiresAtMs, last.now).0
  }

  predicate Granted(claims: seq<Claim>, i: nat)
    requires i < |claims|
  {
    Claiming(SeenAfter(claims[..i]), claims[i].nonce, claims[i].expiresAtMs, claims[i].now).1
  }

  // Claim j was granted, and the clock has not passed its expiry since.
  predicate Standing(claims: seq<Claim>, j: nat)
    requires j < |claims|
  {
    Granted(claims, j) && forall k :: j < k < |claims| ==> claims[k].now <= claims[j].expiresAtMs
  }

  lemma StandingBefore(claims: seq<Claim>, j: nat)
    requires j + 1 < |claims|
    ensures Standing(claims, j) <==>
            Standing(claims[..|claims| - 1], j) && claims[|claims| - 1].now <= claims[j].expiresAtMs
  {
    var init := claims[..|claims| - 1];
    assert init[..j] == claims[..j];
    assert forall k :: 0 <= k < |init| ==> init[k] == claims[k];
  }

  lemma {:induction false} StandingHasRow(claims: seq<Claim>, j: nat)
    requires j < |claims| && Standing(claims, j)
    ensures claims[j].nonce in SeenAfter(claims)
    ensures SeenAfter(claims)[claims[j].nonce] == claims[j].expiresAtMs
    decreases |claims|
  {
    if j + 1 < |claims| {
      StandingBefore(claims, j);
      StandingHasRow(claims[..|claims| - 1], j);
    }
  }

  lemma {:induction false} RowIsStanding(claims: seq<Claim>, nonce: string) returns (j: nat)
    requires nonce in SeenAfter(claims)
    ensures j < |claims| && claims[j].nonce == nonce && Standing(claims, j)
    decreases |claims|
  {
    var init, n := claims[..|claims| - 1], |claims| - 1;
    if claims[n].nonce == nonce && Granted(claims, n) {
      j := n;
    } else {
      assert nonce in SeenAfter(init);
      j := RowIsStanding(init, nonce);
      StandingHasRow(init, j);
      StandingBefore(claims, j);
    }
  }

  // Exactly when a claim is granted, for any clock: no claim of its nonce was granted before whose expiry the
  // clock has not passed since.
  lemma GrantedExactly(claims: seq<Claim>, i: nat)
    requires i < |claims|
    ensures Granted(claims, i) <==>
            !exists j :: 0 <= j < i && claims[j].nonce == claims[i].nonce && Standing(claims[..i], j)
                         && claims[i].now <= claims[j].expiresAtMs
  {
    var earlier := claims[..i];
    if claims[i].nonce in SeenAfter(earlier) {
      var j := RowIsStanding(earlier, claims[i].nonce);
      StandingHasRow(earlier, j);
      assert earlier[j] == claims[j];
      forall k | 0 <= k < i && claims[k].nonce == claims[i].nonce && Standing(earlier, k)
        ensures claims[k].expiresAtMs == claims[j].expiresAtMs
      {
        StandingHasRow(earlier, k);
      }
    } else {
      forall k | 0 <= k < i && claims[k].nonce == claims[i].nonce ensures !Standing(earlier, k) {
        if Standing(earlier, k) { StandingHasRow(earlier, k); }
      }
    }
  }

  predicate Monotone(claims: seq<Claim>) {
    forall i, j :: 0 <= i < j < |claims| ==> claims[i].now <= claims[j].now
  }

  // A nonce is granted again only after the expiry it was granted with: among claims of one nonce with one
  // expiry, made no later than it, at most one is granted.
  lemma AtMostOneGrant(claims: seq<Claim>, j: nat, i: nat)
    requires Monotone(claims) && j < i < |claims|
    requires Granted(claims, j) && Granted(claims, i) && claims[j].nonce == claims[i].nonce
    ensures claims[i].now > claims[j].expiresAtMs
    ensures claims[i].expiresAtMs == claims[j].expiresAtMs ==> claims[i].now > claims[i].expiresAtMs
  {
    var earlier := claims[..i];
    assert earlier[..j] == claims[..j];
    if claims[i].now <= claims[j].expiresAtMs {
      assert Standing(earlier, j);
      GrantedExactly(claims, i);
    }
  }

  // ---------------------------------------------------------------- One store per signer

  const MAX_AGE_SECONDS := 300
  const CLOCK_SKEW_SECONDS := 5

  function ExpiryMs(created: Option<int>): int {
    ((if created.Some? then created.value else 0) + MAX_AGE_SECONDS + CLOCK_SKEW_SECONDS) * 1000
  }

  // A verified signature arriving at the ingress.
  datatype Signature = Signature(signer: string, nonce: string, created: Option<int>, now: int)

  function ClaimOf(signature: Signature): Claim {
    Claim(signature.nonce, ExpiryMs(signature.created), signature.now)
  }

  type Stores = map<string, Seen>

  function StoreOf(stores: Stores, signer: string): Seen {
    if signer in stores then stores[signer] else map[]
  }

  function ClaimingSignature(stores: Stores, signature: Signature): (Stores, bool) {
    var claim := ClaimOf(signature);
    var (seen, granted) := Claiming(StoreOf(stores, signature.signer), claim.nonce, claim.expiresAtMs, claim.now);
    (stores[signature.signer := seen], granted)
  }

  function StoresAfter(signatures: seq<Signature>): Stores {
    if signatures == [] then map[]
    else ClaimingSignature(StoresAfter(signatures[..|signatures| - 1]), signatures[|signatures| - 1]).0
  }

  predicate Admitted(signatures: seq<Signature>, i: nat)
    requires i < |signatures|
  {
    ClaimingSignature(StoresAfter(signatures[..i]), signatures[i]).1
  }

  // What one signer's store alone would have met.
  function ClaimsOf(signatures: seq<Signature>, signer: string): seq<Claim> {
    if signatures == [] then []
    else
      var earlier, last := ClaimsOf(signatures[..|signatures| - 1], signer), signatures[|signatures| - 1];
      if last.signer == signer then earlier + [ClaimOf(last)] else earlier
  }

  lemma {:induction false} StoreIsOwn(signatures: seq<Signature>, signer: string)
    ensures StoreOf(StoresAfter(signatures), signer) == SeenAfter(ClaimsOf(signatures, signer))
  {
    if signatures != [] {
      var init := signatures[..|signatures| - 1];
      StoreIsOwn(init, signer);
      var earlier, all := ClaimsOf(init, signer), ClaimsOf(signatures, signer);
      if signatures[|signatures| - 1].signer == signer {
        assert all[..|all| - 1] == earlier;
      }
    }
  }

  lemma {:induction false} ClaimsGrow(signatures: seq<Signature>, signer: string, n: nat)
    requires n <= |signatures|
    ensures ClaimsOf(signatures[..n], signer) <= ClaimsOf(signatures, signer)
    decreases |signatures|
  {
    if n < |signatures| {
      assert signatures[..|signatures| - 1][..n] == signatures[..n];
      ClaimsGrow(signatures[..|signatures| - 1], signer, n);
    } else {
      assert signatures[..n] == signatures;
    }
  }

  // Stores of different signers never interfere: a signature is admitted exactly when its signer's store,
  // fed that signer's signatures alone, would grant it.
  lemma SignersIndependent(signatures: seq<Signature>, i: nat)
    requires i < |signatures|
    ensures var claims, earlier := ClaimsOf(signatures, signatures[i].signer),
                                   ClaimsOf(signatures[..i], signatures[i].signer);
            && |earlier| < |claims| && claims[|earlier|] == ClaimOf(signatures[i])
            && (Admitted(signatures, i) <==> Granted(claims, |earlier|))
  {
    hide Claiming;
    var signer := signatures[i].signer;
    var claims, earlier := ClaimsOf(signatures, signer), ClaimsOf(signatures[..i], signer);
    var upTo := ClaimsOf(signatures[..i + 1], signer);
    assert signatures[..i + 1][..i] == signatures[..i];
    assert upTo == earlier + [ClaimOf(signatures[i])];
    ClaimsGrow(signatures, signer, i + 1);
    assert claims[..|earlier|] == upTo[..|earlier|] == earlier;
    assert claims[|earlier|] == upTo[|earlier|];
    StoreIsOwn(signatures[..i], signer);
  }

  predicate ClockOk(signatures: seq<Signature>) {
    forall i, j :: 0 <= i < j < |signatures| ==> signatures[i].now <= signatures[j].now
  }

  lemma {:induction false} ClaimTimes(signatures: seq<Signature>, signer: string)
    requires ClockOk(signatures)
    ensures Monotone(ClaimsOf(signatures, signer))
    ensures forall k :: 0 <= k < |ClaimsOf(signatures, signer)| ==>
              signatures != [] && ClaimsOf(signatures, signer)[k].now <= signatures[|signatures| - 1].now
  {
    if signatures != [] {
      var init := signatures[..|signatures| - 1];
      ClaimTimes(init, signer);
      if init != [] { assert init[|init| - 1].now <= signatures[|signatures| - 1].now; }
    }
  }

  // The last millisecond at which a signature can still be fresh: 300 seconds after its creation, given that clocks
  // may differ by 5.
  function WindowEnd(signature: Signature): int {
    match signature.created
    case Some(created) => 1000 * created + 305_000
    case None => 305_000
  }

  // Over all traffic of all signers: one signature - signer, nonce and creation time - is admitted at most once
  // up to the end of its window.
  lemma SignatureOnce(signatures: seq<Signature>, j: nat, i: nat)
    requires ClockOk(signatures) && j < i < |signatures|
    requires Admitted(signatures, j) && Admitted(signatures, i)
    requires signatures[j].signer == signatures[i].signer && signatures[j].nonce == signatures[i].nonce
    ensures signatures[i].now > WindowEnd(signatures[j])
  {
    hide Admitted, Granted, ClaimsOf;
    var signer := signatures[i].signer;
    var m, n := |ClaimsOf(signatures[..j], signer)|, |ClaimsOf(signatures[..i], signer)|;
    SignersIndependent(signatures, j);
    SignersIndependent(signatures, i);
    SignersIndependent(signatures[..i], j);
    assert signatures[..i][..j] == signatures[..j] && signatures[..i][j] == signatures[j];
    ClaimTimes(signatures, signer);
    AtMostOneGrant(ClaimsOf(signatures, signer), m, n);
    ClaimWindow(signatures[j]);
  }

  // Each claim of a signer's store is one of its signatures.
  lemma {:induction false} ClaimIsSignature(signatures: seq<Signature>, signer: string, m: nat) returns (j: nat)
    requires m < |ClaimsOf(signatures, signer)|
    ensures j < |signatures| && signatures[j].signer == signer
    ensures ClaimsOf(signatures, signer)[m] == ClaimOf(signatures[j]) && |ClaimsOf(signatures[..j], signer)| == m
  {
    var n := |signatures| - 1;
    var earlier := ClaimsOf(signatures[..n], signer);
    if m < |earlier| {
      j := ClaimIsSignature(signatures[..n], signer, m);
      assert signatures[..n][..j] == signatures[..j];
    } else {
      j := n;
    }
  }

  // The window again, of a claim as the store is given it.
  lemma ClaimWindow(signature: Signature)
    ensures ClaimOf(signature).expiresAtMs == WindowEnd(signature)
  {
  }

  // Under a clock that does not go back a signature is admitted exactly when the window of every signature of its
  // signer and nonce that was admitted before is over: refused up to its last millisecond, free from the next on.
  lemma AdmittedExactly(signatures: seq<Signature>, i: nat)
    requires ClockOk(signatures) && i < |signatures|
    ensures Admitted(signatures, i) <==>
            forall j :: 0 <= j < i && signatures[j].signer == signatures[i].signer
                        && signatures[j].nonce == signatures[i].nonce && Admitted(signatures, j) ==>
              signatures[i].now > WindowEnd(signatures[j])
  {
    hide Admitted, Granted, ClaimsOf, Standing;
    if Admitted(signatures, i) {
      forall j | 0 <= j < i && signatures[j].signer == signatures[i].signer
                 && signatures[j].nonce == signatures[i].nonce && Admitted(signatures, j)
        ensures signatures[i].now > WindowEnd(signatures[j])
      {
        SignatureOnce(signatures, j, i);
      }
    } else {
      var j := Refuser(signatures, i);
    }
  }

  // What a refused signature was refused for.
  lemma Refuser(signatures: seq<Signature>, i: nat) returns (j: nat)
    requires i < |signatures| && !Admitted(signatures, i)
    ensures j < i && signatures[j].signer == signatures[i].signer && signatures[j].nonce == signatures[i].nonce
    ensures Admitted(signatures, j) && signatures[i].now <= WindowEnd(signatures[j])
  {
    hide Admitted, Granted, ClaimsOf;
    var signer := signatures[i].signer;
    var claims, earlier := ClaimsOf(signatures, signer), ClaimsOf(signatures[..i], signer);
    SignersIndependent(signatures, i);
    GrantedExactly(claims, |earlier|);
    var m :| 0 <= m < |earlier| && claims[m].nonce == claims[|earlier|].nonce && Standing(claims[..|earlier|], m)
             && claims[|earlier|].now <= claims[m].expiresAtMs;
    ClaimsGrow(signatures, signer, i);
    assert claims[m] == earlier[m];
    j := ClaimIsSignature(signatures[..i], signer, m);
    assert signatures[..i][..j] == signatures[..j];
    SignersIndependent(signatures, j);
    ClaimWindow(signatures[j]);
    GrantedPrefix(claims, |earlier|, m);
  }

  lemma GrantedPrefix(claims: seq<Claim>, n: nat, m: nat)
    requires m < n <= |claims|
    ensures Granted(claims[..n], m) == Granted(claims, m)
  {
    assert claims[..n][..m] == claims[..m];
  }
}
