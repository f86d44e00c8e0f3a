/**
 The credential tables and their transactions: users with an encrypted password verifier,
 seed wraps, and password reset requests. Each transaction is atomic; a transaction that
 fails leaves the tables as they were.
 */
module Credentials {
  import opened Options
  import opened CanonicalEncoding
  import opened SeedWrapping

  /** An encrypted verifier: the verifier and the nonce it was encrypted with. */
  datatype VerifierEnc = VerifierEnc(verifier: Bytes, nonce: nat)

  /** A user row. `login` is the normalized email, or the uuid text of a guest. */
  datatype User = User(project: I32, idKind: IdentifierKind, login: Bytes, passwordEnc: Option<VerifierEnc>)

  datatype ResetRequest = ResetRequest(user: Uuid, expires: nat, isReset: bool, createdAt: nat)

  datatype Db = Db(users: map<Uuid, User>, wraps: seq<WrapRow>, requests: map<nat, ResetRequest>)

  datatype ChangeResult = Changed | StaleCredentialState
  datatype ResetResult = ResetDone | UserMissing | PasswordResetRequestNotFound

  // ---------- Wrap rows ----------

  function Binding(uuid: Uuid, user: User, verifier: Bytes): (r: Mac)
    requires |user.login| < U32_MODULUS && |verifier| < U32_MODULUS
  {
    PasswordAuthBinding(user.project, uuid, user.idKind, user.login, verifier)
  }

  function PasswordRow(uuid: Uuid, user: User, verifier: Bytes, seed: Bytes, nonce: nat): (r: WrapRow)
    requires |user.login| < U32_MODULUS && |verifier| < U32_MODULUS
  {
    WrapRow(uuid, Password, PasswordLookupHash(user.project, uuid), SEED_WRAP_VERSION_V1,
            EncryptSeed(seed, uuid, user.project, Password, Binding(uuid, user, verifier), nonce))
  }

  function OAuthRow(uuid: Uuid, user: User, provider: Bytes, subject: Bytes, seed: Bytes, nonce: nat): (r: WrapRow)
    requires |provider| < U32_MODULUS && |subject| < U32_MODULUS
  {
    WrapRow(uuid, OAuth, OAuthLookupHash(user.project, uuid, provider, subject), SEED_WRAP_VERSION_V1,
            EncryptSeed(seed, uuid, user.project, OAuth, OAuthAuthBinding(user.project, uuid, provider, subject), nonce))
  }

  function DeleteKind(wraps: seq<WrapRow>, user: Uuid, kind: CredentialKind): (r: seq<WrapRow>) {
    if wraps == [] then []
    else if wraps[0].user == user && wraps[0].kind == kind then DeleteKind(wraps[1..], user, kind)
    else [wraps[0]] + DeleteKind(wraps[1..], user, kind)
  }

  function DeleteUser(wraps: seq<WrapRow>, user: Uuid): (r: seq<WrapRow>) {
    DeleteKind(DeleteKind(wraps, user, Password), user, OAuth)
  }

  predicate SameCredential(a: WrapRow, b: WrapRow) {
    a.user == b.user && a.kind == b.kind && a.lookup == b.lookup && a.version == b.version
  }

  /** Insert, or replace the ciphertext of the row with the same credential. */
  function Upsert(wraps: seq<WrapRow>, row: WrapRow): (r: seq<WrapRow>) {
    if wraps == [] then [row]
    else if SameCredential(wraps[0], row) then [wraps[0].(seedEnc := row.seedEnc)] + wraps[1..]
    else [wraps[0]] + Upsert(wraps[1..], row)
  }

  // ---------- Transactions ----------

  /** Registration: the user row and its first wrap appear together. */
  function CreateUser(db: Db, uuid: Uuid, user: User, row: WrapRow): (r: Db) {
    db.(users := db.users[uuid := user], wraps := Upsert(db.wraps, row))
  }

  /** Password change: a compare-and-swap on the encrypted verifier guards the new wrap. */
  function ChangePassword(db: Db, uuid: Uuid, expected: VerifierEnc, enc: VerifierEnc, row: WrapRow)
    : (r: (Db, ChangeResult))
  {
    if uuid !in db.users || db.users[uuid].passwordEnc != Some(expected) then (db, StaleCredentialState)
    else
      (db.(users := db.users[uuid := db.users[uuid].(passwordEnc := Some(enc))],
           wraps := DeleteKind(db.wraps, uuid, Password) + [row]),
       Changed)
  }

  predicate Consumable(db: Db, uuid: Uuid, id: nat, now: nat) {
    id in db.requests && db.requests[id].user == uuid && !db.requests[id].isReset && now < db.requests[id].expires
  }

  /** Marks every open request of the user as used. */
  function CloseRequests(requests: map<nat, ResetRequest>, uuid: Uuid): (r: map<nat, ResetRequest>) {
    map id | id in requests ::
      if requests[id].user == uuid then requests[id].(isReset := true) else requests[id]
  }

  /** Destructive reset: consumes the request, closes the user's other requests, deletes every
      wrap of the user and starts over with a new verifier and wrap. */
  function CompleteReset(db: Db, uuid: Uuid, id: nat, enc: VerifierEnc, row: WrapRow, now: nat)
    : (r: (Db, ResetResult))
  {
    if uuid !in db.users then (db, UserMissing)
    else if !Consumable(db, uuid, id, now) then (db, PasswordResetRequestNotFound)
    else
      (Db(db.users[uuid := db.users[uuid].(passwordEnc := Some(enc))],
          Upsert(DeleteUser(db.wraps, uuid), row),
          CloseRequests(db.requests, uuid)),
       ResetDone)
  }

  // ---------- The tables as an object ----------

  class Database {
    var users: map<Uuid, User>
    var wraps: seq<WrapRow>
    var requests: map<nat, ResetRequest>

    ghost function State(): (r: Db)
      reads this
    {
      Db(users, wraps, requests)
    }

    method UpdateUserPasswordAndSeedWrap(uuid: Uuid, expected: VerifierEnc, enc: VerifierEnc, row: WrapRow)
      returns (r: ChangeResult)
      modifies this
      ensures (State(), r) == ChangePassword(old(State()), uuid, expected, enc, row)
    {
      var updated := 0;
      if uuid in users && users[uuid].passwordEnc == Some(expected) {
        users := users[uuid := users[uuid].(passwordEnc := Some(enc))];
        updated := 1;
      }
      if updated != 1 {
        return StaleCredentialState;
      }
      wraps := DeleteKind(wraps, uuid, Password);
      wraps := wraps + [row];
      r := Changed;
    }

    method CompleteDestructivePasswordReset(uuid: Uuid, id: nat, enc: VerifierEnc, row: WrapRow, now: nat)
      returns (r: ResetResult)
      modifies this
      ensures (State(), r) == CompleteReset(old(State()), uuid, id, enc, row, now)
    {
      if uuid !in users {
        return UserMissing;
      }
      var consumed := 0;
      if Consumable(Db(users, wraps, requests), uuid, id, now) {
        requests := requests[id := requests[id].(isReset := true)];
        consumed := 1;
      }
      if consumed != 1 {
        return PasswordResetRequestNotFound;
      }
      ghost var before := old(requests);
      requests := map i | i in requests ::
        if requests[i].user == uuid && i != id && !requests[i].isReset then requests[i].(isReset := true) else requests[i];
      assert requests == CloseRequests(before, uuid);
      wraps := DeleteUser(wraps, uuid);
      users := users[uuid := users[uuid].(passwordEnc := Some(enc))];
      wraps := Upsert(wraps, row);
      r := ResetDone;
    }
  }

  // ---------- What the row operations do to the candidates of a user ----------

  lemma {:induction false} CandidatesAppend(a: seq<WrapRow>, b: seq<WrapRow>, user: Uuid, kind: CredentialKind)
    ensures Candidates(a + b, user, kind) == Candidates(a, user, kind) + Candidates(b, user, kind)
  {
    if a == [] {
      assert a + b == b;
    } else {
      assert (a + b)[1..] == a[1..] + b;
      CandidatesAppend(a[1..], b, user, kind);
    }
  }

  lemma {:induction false} CandidatesDelete(wraps: seq<WrapRow>, user: Uuid, kind: CredentialKind, user': Uuid, kind': CredentialKind)
    ensures Candidates(DeleteKind(wraps, user, kind), user', kind') ==
            if user' == user && kind' == kind then [] else Candidates(wraps, user', kind')
  {
    if wraps != [] {
      CandidatesDelete(wraps[1..], user, kind, user', kind');
      var rest := DeleteKind(wraps[1..], user, kind);
      assert ([wraps[0]] + rest)[1..] == rest;
    }
  }

  lemma CandidatesDeleteUser(wraps: seq<WrapRow>, user: Uuid, user': Uuid, kind': CredentialKind)
    ensures Candidates(DeleteUser(wraps, user), user', kind') ==
            if user' == user then [] else Candidates(wraps, user', kind')
  {
    CandidatesDelete(wraps, user, Password, user', kind');
    CandidatesDelete(DeleteKind(wraps, user, Password), user, OAuth, user', kind');
  }

  /** Without an earlier row of the user and kind, an upsert is an insert at the end. */
  lemma {:induction false} UpsertInserts(wraps: seq<WrapRow>, row: WrapRow)
    requires Candidates(wraps, row.user, row.kind) == []
    ensures Upsert(wraps, row) == wraps + [row]
  {
    if wraps != [] { UpsertInserts(wraps[1..], row); }
  }

  lemma {:induction false} OwnersKept(wraps: seq<WrapRow>, user: Uuid, kind: CredentialKind, owners: set<Uuid>)
    requires forall i :: 0 <= i < |wraps| ==> wraps[i].user in owners
    ensures forall i :: 0 <= i < |DeleteKind(wraps, user, kind)| ==> DeleteKind(wraps, user, kind)[i].user in owners
  {
    if wraps != [] { OwnersKept(wraps[1..], user, kind, owners); }
  }

  lemma {:induction false} NoOwnerNoCandidates(wraps: seq<WrapRow>, user: Uuid, kind: CredentialKind)
    requires forall i :: 0 <= i < |wraps| ==> wraps[i].user != user
    ensures Candidates(wraps, user, kind) == []
  {
    if wraps != [] { NoOwnerNoCandidates(wraps[1..], user, kind); }
  }

  /** An upsert of a credential that has a row replaces the ciphertext of that row, and nothing else. */
  lemma {:induction false} UpsertReplaces(wraps: seq<WrapRow>, row: WrapRow, i: nat)
    requires i < |wraps| && SameCredential(wraps[i], row) && forall j :: 0 <= j < i ==> !SameCredential(wraps[j], row)
    ensures Upsert(wraps, row) == wraps[i := row]
  {
    if i > 0 { UpsertReplaces(wraps[1..], row, i - 1); }
  }
}
