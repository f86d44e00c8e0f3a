/**
 Interleaved runs of registration, login, password change and destructive reset. A change and
 a reset read the tables in one step, prepare their new verifier and wrap in another, and
 commit in a third; any other step may come in between.
 */
module CredentialRuns {
  import opened Options
  import opened CanonicalEncoding
  import opened SeedWrapping
  import opened Credentials

  datatype Task =
    | ChangeRead(uuid: Uuid, snap: User, ctx: AuthContext)
    | ChangeReady(uuid: Uuid, snap: User, enc: VerifierEnc, seed: Bytes, row: WrapRow)
    | ResetRead(uuid: Uuid, snap: User)
    | ResetReady(uuid: Uuid, snap: User, request: nat, enc: VerifierEnc, seed: Bytes, row: WrapRow)

  /** A context handed out for a user; for a password context, the verifier behind it. */
  datatype Issued = Issued(user: Uuid, ctx: AuthContext, verifier: Bytes)

  datatype ResetCommit = ResetCommit(user: Uuid, request: nat, requestCreated: nat, at: nat)

  /** The tables and running tasks, with the history the properties speak about: the seed each
      user was last given, the verifiers that ever became current, those replaced since, the
      contexts handed out, the users who went through a reset, and the resets in order. */
  datatype World = World(
    db: Db,
    tasks: map<nat, Task>,
    seeds: map<Uuid, Bytes>,
    published: set<Bytes>,
    retired: set<(Uuid, Bytes)>,
    issued: set<Issued>,
    wiped: set<Uuid>,
    resets: seq<ResetCommit>,
    time: nat)

  datatype Event =
    | RegisterPassword(uuid: Uuid, project: I32, idKind: IdentifierKind, login: Bytes, verifier: Bytes, seed: Bytes, encNonce: nat, nonce: nat)
    | RegisterOAuth(uuid: Uuid, project: I32, login: Bytes, provider: Bytes, subject: Bytes, seed: Bytes, nonce: nat)
    | Issue(uuid: Uuid, ctx: AuthContext)
    | ReadChange(t: nat, uuid: Uuid, ctx: AuthContext)
    | PrepareChange(t: nat, verifier: Bytes, encNonce: nat, nonce: nat)
    | CommitChange(t: nat)
    | OpenRequest(id: nat, uuid: Uuid, expires: nat)
    | ReadReset(t: nat, uuid: Uuid)
    | PrepareReset(t: nat, request: nat, verifier: Bytes, seed: Bytes, encNonce: nat, nonce: nat, now: nat)
    | CommitReset(t: nat, now: nat)
    | Abandon(t: nat)

  function Start(): (r: World) {
    World(Db(map[], [], map[]), map[], map[], {}, {}, {}, {}, [], 0)
  }

  predicate Ready(task: Task) {
    task.ChangeReady? || task.ResetReady?
  }

  /** A salted hash never comes out the same twice. */
  ghost predicate FreshVerifier(w: World, v: Bytes) {
    && |v| < U32_MODULUS
    && v !in w.published
    && forall t :: t in w.tasks && Ready(w.tasks[t]) ==> w.tasks[t].enc.verifier != v
  }

  predicate HasPassword(db: Db, uuid: Uuid) {
    uuid in db.users && db.users[uuid].passwordEnc.Some?
  }

  predicate Opens(db: Db, uuid: Uuid, ctx: AuthContext) {
    uuid in db.users && Unwrap(db.wraps, uuid, db.users[uuid].project, ctx).Some?
  }

  ghost predicate Enabled(w: World, e: Event) {
    match e
    case RegisterPassword(uuid, _, _, login, verifier, _, _, _) =>
      uuid !in w.db.users && |login| < U32_MODULUS && FreshVerifier(w, verifier)
    case RegisterOAuth(uuid, _, login, provider, subject, _, _) =>
      uuid !in w.db.users && |login| < U32_MODULUS && |provider| < U32_MODULUS && |subject| < U32_MODULUS
    case Issue(uuid, ctx) => Opens(w.db, uuid, ctx)
    case ReadChange(t, uuid, _) => t !in w.tasks && HasPassword(w.db, uuid)
    case PrepareChange(t, verifier, _, _) =>
      && t in w.tasks && w.tasks[t].ChangeRead?
      && |w.tasks[t].snap.login| < U32_MODULUS
      && Unwrap(w.db.wraps, w.tasks[t].uuid, w.tasks[t].snap.project, w.tasks[t].ctx).Some?
      && FreshVerifier(w, verifier)
    case CommitChange(t) => t in w.tasks && w.tasks[t].ChangeReady? && w.tasks[t].snap.passwordEnc.Some?
    case OpenRequest(id, uuid, _) => id !in w.db.requests && HasPassword(w.db, uuid) && w.db.users[uuid].idKind == Email
    case ReadReset(t, uuid) => t !in w.tasks && HasPassword(w.db, uuid) && w.db.users[uuid].idKind == Email
    case PrepareReset(t, id, verifier, _, _, _, now) =>
      && t in w.tasks && w.tasks[t].ResetRead?
      && |w.tasks[t].snap.login| < U32_MODULUS
      && id in w.db.requests && w.db.requests[id].user == w.tasks[t].uuid
      && !w.db.requests[id].isReset && now <= w.db.requests[id].expires
      && FreshVerifier(w, verifier)
    case CommitReset(t, _) => t in w.tasks && w.tasks[t].ResetReady?
    case Abandon(t) => t in w.tasks
  }

  function CurrentVerifier(db: Db, uuid: Uuid): (r: Bytes) {
    if HasPassword(db, uuid) then db.users[uuid].passwordEnc.value.verifier else []
  }

  function Next(w: World, e: Event): (r: World)
    requires Enabled(w, e)
  {
    var w := w.(time := w.time + 1);
    match e
    case RegisterPassword(uuid, project, idKind, login, verifier, seed, encNonce, nonce) =>
      var user := User(project, idKind, login, Some(VerifierEnc(verifier, encNonce)));
      w.(db := CreateUser(w.db, uuid, user, PasswordRow(uuid, user, verifier, seed, nonce)),
         seeds := w.seeds[uuid := seed], published := w.published + {verifier})
    case RegisterOAuth(uuid, project, login, provider, subject, seed, nonce) =>
      var user := User(project, Email, login, None);
      w.(db := CreateUser(w.db, uuid, user, OAuthRow(uuid, user, provider, subject, seed, nonce)),
         seeds := w.seeds[uuid := seed])
    case Issue(uuid, ctx) =>
      w.(issued := w.issued + {Issued(uuid, ctx, CurrentVerifier(w.db, uuid))})
    case ReadChange(t, uuid, ctx) =>
      w.(tasks := w.tasks[t := ChangeRead(uuid, w.db.users[uuid], ctx)])
    case PrepareChange(t, verifier, encNonce, nonce) =>
      var ChangeRead(uuid, snap, ctx) := w.tasks[t];
      var seed := Unwrap(w.db.wraps, uuid, snap.project, ctx).value;
      w.(tasks := w.tasks[t := ChangeReady(uuid, snap, VerifierEnc(verifier, encNonce), seed,
                                           PasswordRow(uuid, snap, verifier, seed, nonce))])
    case CommitChange(t) =>
      var ChangeReady(uuid, snap, enc, seed, row) := w.tasks[t];
      var (db, result) := ChangePassword(w.db, uuid, snap.passwordEnc.value, enc, row);
      if result.Changed? then
        w.(db := db, tasks := w.tasks - {t}, published := w.published + {enc.verifier},
           retired := w.retired + {(uuid, CurrentVerifier(w.db, uuid))})
      else w.(tasks := w.tasks - {t})
    case OpenRequest(id, uuid, expires) =>
      w.(db := w.db.(requests := w.db.requests[id := ResetRequest(uuid, expires, false, w.time)]))
    case ReadReset(t, uuid) =>
      w.(tasks := w.tasks[t := ResetRead(uuid, w.db.users[uuid])])
    case PrepareReset(t, id, verifier, seed, encNonce, nonce, _) =>
      var ResetRead(uuid, snap) := w.tasks[t];
      w.(tasks := w.tasks[t := ResetReady(uuid, snap, id, VerifierEnc(verifier, encNonce), seed,
                                          PasswordRow(uuid, snap, verifier, seed, nonce))])
    case CommitReset(t, now) =>
      var ResetReady(uuid, snap, id, enc, seed, row) := w.tasks[t];
      var (db, result) := CompleteReset(w.db, uuid, id, enc, row, now);
      if result.ResetDone? then
        w.(db := db, tasks := w.tasks - {t}, seeds := w.seeds[uuid := seed],
           published := w.published + {enc.verifier},
           retired := w.retired + {(uuid, CurrentVerifier(w.db, uuid))},
           wiped := w.wiped + {uuid},
           resets := w.resets + [ResetCommit(uuid, id, w.db.requests[id].createdAt, w.time)])
      else w.(tasks := w.tasks - {t})
    case Abandon(t) => w.(tasks := w.tasks - {t})
  }

  ghost predicate Admissible(w: World, events: seq<Event>)
    decreases |events|
  {
    events == [] || (Enabled(w, events[0]) && Admissible(Next(w, events[0]), events[1..]))
  }

  ghost function Run(w: World, events: seq<Event>): (r: World)
    requires Admissible(w, events)
    decreases |events|
  {
    if events == [] then w else Run(Next(w, events[0]), events[1..])
  }

  // ---------- The invariant ----------

  /** A user has a seed, and a current verifier that was published and never replaced. */
  ghost predicate UserOk(users: map<Uuid, User>, seeds: map<Uuid, Bytes>, published: set<Bytes>, retired: set<(Uuid, Bytes)>, u: Uuid)
    requires u in users
  {
    && |users[u].login| < U32_MODULUS
    && u in seeds
    && (users[u].passwordEnc.Some? ==>
          var v := users[u].passwordEnc.value.verifier;
          |v| < U32_MODULUS && v in published && (u, v) !in retired)
  }

  /** Exactly one password wrap when there is a verifier, made for that verifier and holding the
      user's seed; none otherwise. Every OAuth wrap holds the same seed. */
  ghost predicate WrapsOk(wraps: seq<WrapRow>, user: User, u: Uuid, seed: Bytes)
    requires |user.login| < U32_MODULUS
    requires user.passwordEnc.Some? ==> |user.passwordEnc.value.verifier| < U32_MODULUS
  {
    && (match user.passwordEnc
        case None => Candidates(wraps, u, Password) == []
        case Some(enc) =>
          var rows := Candidates(wraps, u, Password);
          && |rows| == 1 && rows[0].seedEnc.Sealed?
          && rows[0] == PasswordRow(u, user, enc.verifier, seed, rows[0].seedEnc.nonce))
    && (var rows := Candidates(wraps, u, OAuth);
        forall i :: 0 <= i < |rows| ==> rows[i].seedEnc.Sealed? && rows[i].seedEnc.plaintext == seed)
  }

  ghost predicate UsersOk(w: World) {
    && (forall u :: u in w.db.users ==>
          UserOk(w.db.users, w.seeds, w.published, w.retired, u) && WrapsOk(w.db.wraps, w.db.users[u], u, w.seeds[u]))
    && (forall i :: 0 <= i < |w.db.wraps| ==> w.db.wraps[i].user in w.db.users)
    && (forall p :: p in w.retired ==> p.1 in w.published)
  }

  /** A user row read earlier differs from the row now at most in the verifier, and then that
      verifier has been replaced. */
  ghost predicate SnapOk(users: map<Uuid, User>, retired: set<(Uuid, Bytes)>, published: set<Bytes>, u: Uuid, snap: User) {
    && u in users
    && users[u].passwordEnc.Some? && snap.passwordEnc.Some?
    && users[u].(passwordEnc := None) == snap.(passwordEnc := None)
    && snap.passwordEnc.value.verifier in published
    && (users[u].passwordEnc == snap.passwordEnc || (u, snap.passwordEnc.value.verifier) in retired)
  }

  ghost predicate PreparedOk(users: map<Uuid, User>, published: set<Bytes>, u: Uuid, snap: User, enc: VerifierEnc, seed: Bytes, row: WrapRow) {
    && |snap.login| < U32_MODULUS && |enc.verifier| < U32_MODULUS
    && enc.verifier !in published
    && row.seedEnc.Sealed?
    && row == PasswordRow(u, snap, enc.verifier, seed, row.seedEnc.nonce)
  }

  ghost predicate TaskOk(w: World, task: Task) {
    && SnapOk(w.db.users, w.retired, w.published, task.uuid, task.snap)
    && (Ready(task) ==> PreparedOk(w.db.users, w.published, task.uuid, task.snap, task.enc, task.seed, task.row))
    && (task.ChangeReady? ==> task.uuid in w.seeds)
    && (task.ChangeReady? && w.db.users[task.uuid].passwordEnc == task.snap.passwordEnc ==> task.seed == w.seeds[task.uuid])
  }

  ghost predicate TasksOk(w: World) {
    && (forall t :: t in w.tasks ==> TaskOk(w, w.tasks[t]))
    && (forall t, u :: t in w.tasks && u in w.tasks && t != u && Ready(w.tasks[t]) && Ready(w.tasks[u]) ==>
          w.tasks[t].enc.verifier != w.tasks[u].enc.verifier)
  }

  /** A password context was made for its user's current verifier or for a replaced one. */
  ghost predicate IssuedOk(users: map<Uuid, User>, retired: set<(Uuid, Bytes)>, i: Issued) {
    && i.user in users
    && (i.ctx.kind == Password ==>
          && |users[i.user].login| < U32_MODULUS && |i.verifier| < U32_MODULUS
          && i.ctx.project == users[i.user].project
          && i.ctx.binding == Binding(i.user, users[i.user], i.verifier)
          && ((users[i.user].passwordEnc.Some? && users[i.user].passwordEnc.value.verifier == i.verifier)
              || (i.user, i.verifier) in retired))
  }

  /** After a reset the user has no OAuth wrap. */
  ghost predicate HistoryOk(w: World) {
    && (forall i :: i in w.issued ==> IssuedOk(w.db.users, w.retired, i))
    && (forall u :: u in w.wiped ==> u in w.db.users && Candidates(w.db.wraps, u, OAuth) == [])
  }

  predicate OpenFor(r: ResetRequest, u: Uuid) {
    r.user == u && !r.isReset
  }

  /** An open request is younger than every reset of its user; a used one stays used. */
  ghost predicate ResetsOk(w: World) {
    && (forall i :: 0 <= i < |w.resets| ==>
          && w.resets[i].at <= w.time
          && w.resets[i].request in w.db.requests
          && w.db.requests[w.resets[i].request].isReset)
    && (forall i, id :: 0 <= i < |w.resets| && id in w.db.requests && OpenFor(w.db.requests[id], w.resets[i].user) ==>
          w.resets[i].at < w.db.requests[id].createdAt)
    && (forall i, j :: 0 <= i < j < |w.resets| ==>
          && w.resets[i].request != w.resets[j].request
          && (w.resets[i].user == w.resets[j].user ==> w.resets[i].at < w.resets[j].requestCreated))
  }

  ghost predicate Valid(w: World) {
    UsersOk(w) && TasksOk(w) && HistoryOk(w) && ResetsOk(w)
  }

  lemma StartValid()
    ensures Valid(Start())
  {
  }

  // ---------- A new verifier becomes current ----------

  /** What a committed change and a committed reset have in common: user `u` gets the verifier
      in `enc` and the wrap `row` for `seed`, and the verifier before it is retired. */
  ghost predicate Swapped(w: World, w': World, u: Uuid, enc: VerifierEnc, seed: Bytes) {
    && HasPassword(w.db, u)
    && w'.db.users == w.db.users[u := w.db.users[u].(passwordEnc := Some(enc))]
    && w'.seeds == w.seeds[u := seed]
    && w'.published == w.published + {enc.verifier}
    && w'.retired == w.retired + {(u, w.db.users[u].passwordEnc.value.verifier)}
    && |enc.verifier| < U32_MODULUS && enc.verifier !in w.published
  }

  /** The rows of all other users are as before. */
  ghost predicate OthersKept(wraps: seq<WrapRow>, wraps': seq<WrapRow>, u: Uuid) {
    forall v, k :: v != u ==> Candidates(wraps', v, k) == Candidates(wraps, v, k)
  }

  /** A user's wraps are fine as long as the user's own rows are. */
  lemma SameRowsOk(wraps: seq<WrapRow>, wraps': seq<WrapRow>, user: User, u: Uuid, seed: Bytes)
    requires |user.login| < U32_MODULUS
    requires user.passwordEnc.Some? ==> |user.passwordEnc.value.verifier| < U32_MODULUS
    requires WrapsOk(wraps, user, u, seed)
    requires Candidates(wraps', u, Password) == Candidates(wraps, u, Password)
    requires Candidates(wraps', u, OAuth) == Candidates(wraps, u, OAuth)
    ensures WrapsOk(wraps', user, u, seed)
  {
  }

  lemma SwapOtherOk(w: World, w': World, u: Uuid, enc: VerifierEnc, seed: Bytes, v: Uuid)
    requires v != u && v in w.db.users && UserOk(w.db.users, w.seeds, w.published, w.retired, v)
    requires WrapsOk(w.db.wraps, w.db.users[v], v, w.seeds[v])
    requires Swapped(w, w', u, enc, seed) && OthersKept(w.db.wraps, w'.db.wraps, u)
    ensures UserOk(w'.db.users, w'.seeds, w'.published, w'.retired, v)
    ensures WrapsOk(w'.db.wraps, w'.db.users[v], v, w'.seeds[v])
  {
    SameRowsOk(w.db.wraps, w'.db.wraps, w.db.users[v], v, w.seeds[v]);
  }

  lemma SwapOwnOk(w: World, w': World, u: Uuid, enc: VerifierEnc, seed: Bytes)
    requires Swapped(w, w', u, enc, seed) && |w.db.users[u].login| < U32_MODULUS
    requires forall p :: p in w.retired ==> p.1 in w.published
    requires w.db.users[u].passwordEnc.value.verifier in w.published
    ensures UserOk(w'.db.users, w'.seeds, w'.published, w'.retired, u)
    ensures forall p :: p in w'.retired ==> p.1 in w'.published
  {
  }

  lemma SwapUsersOk(w: World, w': World, u: Uuid, enc: VerifierEnc, seed: Bytes)
    requires UsersOk(w) && Swapped(w, w', u, enc, seed)
    requires OthersKept(w.db.wraps, w'.db.wraps, u)
    requires |w.db.users[u].login| < U32_MODULUS
    requires WrapsOk(w'.db.wraps, w.db.users[u].(passwordEnc := Some(enc)), u, seed)
    requires forall i :: 0 <= i < |w'.db.wraps| ==> w'.db.wraps[i].user in w.db.users
    ensures UsersOk(w')
  {
    assert UserOk(w.db.users, w.seeds, w.published, w.retired, u);
    SwapOwnOk(w, w', u, enc, seed);
    forall v | v in w'.db.users
      ensures UserOk(w'.db.users, w'.seeds, w'.published, w'.retired, v)
      ensures WrapsOk(w'.db.wraps, w'.db.users[v], v, w'.seeds[v])
    {
      if v != u {
        assert UserOk(w.db.users, w.seeds, w.published, w.retired, v);
        SwapOtherOk(w, w', u, enc, seed, v);
      }
    }
  }

  lemma SwapTaskOk(w: World, w': World, u: Uuid, enc: VerifierEnc, seed: Bytes, task: Task)
    requires TaskOk(w, task) && Swapped(w, w', u, enc, seed)
    requires Ready(task) ==> task.enc.verifier != enc.verifier
    ensures TaskOk(w', task)
  {
  }

  lemma SwapTasksOk(w: World, w': World, t: nat, u: Uuid, enc: VerifierEnc, seed: Bytes)
    requires TasksOk(w) && Swapped(w, w', u, enc, seed)
    requires t in w.tasks && Ready(w.tasks[t]) && w.tasks[t].enc == enc && w'.tasks == w.tasks - {t}
    ensures TasksOk(w')
  {
    forall s | s in w'.tasks
      ensures TaskOk(w', w'.tasks[s])
    {
      SwapTaskOk(w, w', u, enc, seed, w.tasks[s]);
    }
  }

  lemma SwapHistoryOk(w: World, w': World, u: Uuid, enc: VerifierEnc, seed: Bytes)
    requires HistoryOk(w) && Swapped(w, w', u, enc, seed)
    requires OthersKept(w.db.wraps, w'.db.wraps, u) && w'.issued == w.issued
    requires w'.wiped == w.wiped || w'.wiped == w.wiped + {u}
    requires u in w'.wiped ==> Candidates(w'.db.wraps, u, OAuth) == []
    ensures HistoryOk(w')
  {
    forall i | i in w'.issued
      ensures IssuedOk(w'.db.users, w'.retired, i)
    {
      assert IssuedOk(w.db.users, w.retired, i);
    }
  }

  // ---------- Registration ----------

  /** Rows of a new user are appended and nobody else's change. */
  lemma NewUserWraps(wraps: seq<WrapRow>, row: WrapRow, v: Uuid, k: CredentialKind)
    requires forall i :: 0 <= i < |wraps| ==> wraps[i].user != row.user
    ensures Candidates(Upsert(wraps, row), v, k) ==
            Candidates(wraps, v, k) + (if v == row.user && k == row.kind then [row] else [])
    ensures Upsert(wraps, row) == wraps + [row]
  {
    NoOwnerNoCandidates(wraps, row.user, row.kind);
    UpsertInserts(wraps, row);
    CandidatesAppend(wraps, [row], v, k);
    assert [row][1..] == [];
  }

  lemma OwnRowOk(wraps: seq<WrapRow>, row: WrapRow, user: User, u: Uuid, seed: Bytes)
    requires (forall i :: 0 <= i < |wraps| ==> wraps[i].user != u) && row.user == u
    requires |user.login| < U32_MODULUS
    requires match user.passwordEnc
             case Some(enc) =>
               |enc.verifier| < U32_MODULUS && row.seedEnc.Sealed? && row == PasswordRow(u, user, enc.verifier, seed, row.seedEnc.nonce)
             case None => row.kind == OAuth && row.seedEnc.Sealed? && row.seedEnc.plaintext == seed
    ensures WrapsOk(Upsert(wraps, row), user, u, seed)
  {
    NewUserWraps(wraps, row, u, Password);
    NewUserWraps(wraps, row, u, OAuth);
    NoOwnerNoCandidates(wraps, u, Password);
    NoOwnerNoCandidates(wraps, u, OAuth);
    assert Candidates(Upsert(wraps, row), u, Password) == if row.kind == Password then [row] else [];
    assert Candidates(Upsert(wraps, row), u, OAuth) == if row.kind == OAuth then [row] else [];
  }

  lemma OtherUserOk(w: World, w': World, row: WrapRow, v: Uuid)
    requires UsersOk(w) && v in w.db.users && v != row.user && row.user !in w.db.users
    requires v in w'.db.users && w'.db.users[v] == w.db.users[v] && w'.db.wraps == Upsert(w.db.wraps, row)
    requires v in w'.seeds && (v in w.seeds ==> w'.seeds[v] == w.seeds[v])
    requires w'.retired == w.retired && w.published <= w'.published
    ensures UserOk(w'.db.users, w'.seeds, w'.published, w'.retired, v)
    ensures WrapsOk(w'.db.wraps, w'.db.users[v], v, w'.seeds[v])
  {
    assert UserOk(w.db.users, w.seeds, w.published, w.retired, v);
    assert WrapsOk(w.db.wraps, w.db.users[v], v, w.seeds[v]);
    NewUserWraps(w.db.wraps, row, v, Password);
    NewUserWraps(w.db.wraps, row, v, OAuth);
    SameRowsOk(w.db.wraps, w'.db.wraps, w.db.users[v], v, w.seeds[v]);
  }

  lemma NewUserOk(w: World, w': World, u: Uuid, user: User, row: WrapRow, seed: Bytes)
    requires UsersOk(w) && u !in w.db.users && row.user == u
    requires w'.db.users == w.db.users[u := user] && w'.db.wraps == Upsert(w.db.wraps, row)
    requires w'.seeds == w.seeds[u := seed] && w'.retired == w.retired && w.published <= w'.published
    requires UserOk(w'.db.users, w'.seeds, w'.published, w'.retired, u)
    requires WrapsOk(w'.db.wraps, user, u, seed)
    ensures UsersOk(w')
  {
    assert forall i :: 0 <= i < |w.db.wraps| ==> w.db.wraps[i].user != u;
    forall v | v in w'.db.users
      ensures UserOk(w'.db.users, w'.seeds, w'.published, w'.retired, v)
      ensures WrapsOk(w'.db.wraps, w'.db.users[v], v, w'.seeds[v])
    {
      if v != u {
        assert UserOk(w.db.users, w.seeds, w.published, w.retired, v);
        OtherUserOk(w, w', row, v);
      }
    }
    assert w'.db.wraps == w.db.wraps + [row] by { NewUserWraps(w.db.wraps, row, u, Password); }
  }

  /** New users, new seeds and verifiers nobody has pending do not disturb tasks or history. */
  lemma GrowthKeeps(w: World, w': World)
    requires TasksOk(w) && HistoryOk(w)
    requires forall u :: u in w.db.users ==>
               u in w'.db.users && w'.db.users[u] == w.db.users[u] && (u in w.seeds ==> u in w'.seeds && w'.seeds[u] == w.seeds[u])
    requires forall u :: u in w.db.users ==> Candidates(w'.db.wraps, u, OAuth) == Candidates(w.db.wraps, u, OAuth)
    requires w'.retired == w.retired && w.published <= w'.published
    requires forall t :: t in w.tasks && Ready(w.tasks[t]) ==> w.tasks[t].enc.verifier !in w'.published
    requires w'.tasks == w.tasks && w'.issued == w.issued && w'.wiped == w.wiped
    ensures TasksOk(w') && HistoryOk(w')
  {
    forall t | t in w'.tasks
      ensures TaskOk(w', w'.tasks[t])
    {
      assert TaskOk(w, w.tasks[t]);
    }
    forall i | i in w'.issued
      ensures IssuedOk(w'.db.users, w'.retired, i)
    {
      assert IssuedOk(w.db.users, w.retired, i);
    }
  }

  lemma NewUserKeeps(w: World, w': World, u: Uuid, user: User, row: WrapRow, seed: Bytes)
    requires Valid(w) && u !in w.db.users && row.user == u && |user.login| < U32_MODULUS
    requires w'.db.users == w.db.users[u := user] && w'.db.wraps == Upsert(w.db.wraps, row)
    requires w'.seeds == w.seeds[u := seed] && w'.retired == w.retired && w.published <= w'.published
    requires w'.tasks == w.tasks && w'.issued == w.issued && w'.wiped == w.wiped
    requires forall t :: t in w.tasks && Ready(w.tasks[t]) ==> w.tasks[t].enc.verifier !in w'.published
    requires match user.passwordEnc
             case Some(enc) =>
               && |enc.verifier| < U32_MODULUS && enc.verifier in w'.published && enc.verifier !in w.published
               && row.seedEnc.Sealed? && row == PasswordRow(u, user, enc.verifier, seed, row.seedEnc.nonce)
             case None => row.kind == OAuth && row.seedEnc.Sealed? && row.seedEnc.plaintext == seed
    ensures UsersOk(w') && TasksOk(w') && HistoryOk(w')
  {
    assert UsersOk(w') by {
      OwnRowOk(w.db.wraps, row, user, u, seed);
      NewUserOk(w, w', u, user, row, seed);
    }
    forall v | v in w.db.users
      ensures Candidates(w'.db.wraps, v, OAuth) == Candidates(w.db.wraps, v, OAuth)
    {
      NewUserWraps(w.db.wraps, row, v, OAuth);
    }
    GrowthKeeps(w, w');
  }

  lemma RegisterPasswordKeeps(w: World, e: Event, w': World)
    requires Valid(w) && e.RegisterPassword? && Enabled(w, e) && w' == Next(w, e)
    ensures UsersOk(w') && TasksOk(w') && HistoryOk(w')
  {
    var user := User(e.project, e.idKind, e.login, Some(VerifierEnc(e.verifier, e.encNonce)));
    NewUserKeeps(w, w', e.uuid, user, PasswordRow(e.uuid, user, e.verifier, e.seed, e.nonce), e.seed);
  }

  lemma RegisterOAuthKeeps(w: World, e: Event, w': World)
    requires Valid(w) && e.RegisterOAuth? && Enabled(w, e) && w' == Next(w, e)
    ensures UsersOk(w') && TasksOk(w') && HistoryOk(w')
  {
    var user := User(e.project, Email, e.login, None);
    NewUserKeeps(w, w', e.uuid, user, OAuthRow(e.uuid, user, e.provider, e.subject, e.seed, e.nonce), e.seed);
  }

  // ---------- Opening ----------

  /** A password context that opens is the one for the current verifier. */
  lemma PasswordOpensCurrent(wraps: seq<WrapRow>, user: User, u: Uuid, seed: Bytes, ctx: AuthContext)
    requires |user.login| < U32_MODULUS
    requires user.passwordEnc.Some? ==> |user.passwordEnc.value.verifier| < U32_MODULUS
    requires WrapsOk(wraps, user, u, seed) && ctx.kind == Password
    ensures Unwrap(wraps, u, user.project, ctx) ==
            if user.passwordEnc.Some? && ctx.project == user.project
               && ctx.binding == Binding(u, user, user.passwordEnc.value.verifier)
            then Some(seed) else None
  {
    UnwrapOfCandidates(wraps, u, user.project, ctx);
    var rows := Candidates(wraps, u, Password);
    if user.passwordEnc.Some? {
      assert rows == [rows[0]];
      assert rows[1..] == [];
      assert MacBytes(ctx.binding)[0] == OfMac(ctx.binding, 0);
      var b := Binding(u, user, user.passwordEnc.value.verifier);
      assert MacBytes(b)[0] == OfMac(b, 0);
    }
  }

  /** Whatever opens, of either kind, gives the user's seed. */
  lemma {:induction false} OpensGivesSeed(rows: seq<WrapRow>, u: Uuid, project: I32, ctx: AuthContext, seed: Bytes)
    requires forall i :: 0 <= i < |rows| ==> rows[i].seedEnc.Sealed? ==> rows[i].seedEnc.plaintext == seed
    requires Unwrap(rows, u, project, ctx).Some?
    ensures Unwrap(rows, u, project, ctx).value == seed
  {
    if rows != [] && !SealedFor(rows[0], u, project, ctx.kind, ctx.binding) {
      OpensGivesSeed(rows[1..], u, project, ctx, seed);
    }
  }

  lemma CandidatesHoldSeed(wraps: seq<WrapRow>, user: User, u: Uuid, seed: Bytes, kind: CredentialKind)
    requires |user.login| < U32_MODULUS
    requires user.passwordEnc.Some? ==> |user.passwordEnc.value.verifier| < U32_MODULUS
    requires WrapsOk(wraps, user, u, seed)
    ensures var rows := Candidates(wraps, u, kind);
            forall i :: 0 <= i < |rows| ==> rows[i].seedEnc.Sealed? ==> rows[i].seedEnc.plaintext == seed
  {
  }

  lemma UnwrapsToSeed(w: World, u: Uuid, ctx: AuthContext)
    requires UsersOk(w) && u in w.db.users && Unwrap(w.db.wraps, u, w.db.users[u].project, ctx).Some?
    ensures u in w.seeds && Unwrap(w.db.wraps, u, w.db.users[u].project, ctx).value == w.seeds[u]
  {
    var user := w.db.users[u];
    assert UserOk(w.db.users, w.seeds, w.published, w.retired, u);
    CandidatesHoldSeed(w.db.wraps, user, u, w.seeds[u], ctx.kind);
    UnwrapOfCandidates(w.db.wraps, u, user.project, ctx);
    OpensGivesSeed(Candidates(w.db.wraps, u, ctx.kind), u, user.project, ctx, w.seeds[u]);
  }

  lemma IssueKeeps(w: World, e: Event, w': World)
    requires Valid(w) && e.Issue? && Enabled(w, e) && w' == Next(w, e)
    ensures HistoryOk(w')
  {
    assert UserOk(w.db.users, w.seeds, w.published, w.retired, e.uuid);
    if e.ctx.kind == Password {
      PasswordOpensCurrent(w.db.wraps, w.db.users[e.uuid], e.uuid, w.seeds[e.uuid], e.ctx);
    }
  }

  // ---------- Reading and preparing ----------

  lemma TaskAdded(w: World, w': World, t: nat, task: Task)
    requires TasksOk(w) && TaskOk(w', task)
    requires w' == w.(tasks := w.tasks[t := task], time := w'.time)
    requires Ready(task) ==> forall s :: s in w.tasks && s != t && Ready(w.tasks[s]) ==> w.tasks[s].enc.verifier != task.enc.verifier
    ensures TasksOk(w')
  {
    forall s | s in w'.tasks
      ensures TaskOk(w', w'.tasks[s])
    {
      if s != t { assert TaskOk(w, w.tasks[s]); }
    }
  }

  /** A user row just read matches itself. */
  lemma SnapFresh(w: World, u: Uuid)
    requires UsersOk(w) && HasPassword(w.db, u)
    ensures SnapOk(w.db.users, w.retired, w.published, u, w.db.users[u])
  {
    assert UserOk(w.db.users, w.seeds, w.published, w.retired, u);
  }

  lemma ReadKeeps(w: World, e: Event, w': World)
    requires UsersOk(w) && TasksOk(w) && (e.ReadChange? || e.ReadReset?) && Enabled(w, e) && w' == Next(w, e)
    ensures TasksOk(w')
  {
    SnapFresh(w, e.uuid);
    TaskAdded(w, w', e.t, w'.tasks[e.t]);
  }

  /** A change prepared at any moment seals the seed the user has at that moment. */
  lemma PrepareKeeps(w: World, e: Event, w': World)
    requires Valid(w) && (e.PrepareChange? || e.PrepareReset?) && Enabled(w, e) && w' == Next(w, e)
    ensures TasksOk(w')
    ensures e.PrepareChange? ==> w'.tasks[e.t].uuid in w.seeds && w'.tasks[e.t].seed == w.seeds[w'.tasks[e.t].uuid]
  {
    var u := w.tasks[e.t].uuid;
    assert TaskOk(w, w.tasks[e.t]);
    if e.PrepareChange? {
      assert w.db.users[u].project == w.tasks[e.t].snap.project;
      UnwrapsToSeed(w, u, w.tasks[e.t].ctx);
    }
    TaskAdded(w, w', e.t, w'.tasks[e.t]);
  }

  lemma TaskDropped(w: World, w': World, t: nat)
    requires TasksOk(w) && w' == w.(tasks := w.tasks - {t}, time := w'.time)
    ensures TasksOk(w')
  {
    forall s | s in w'.tasks
      ensures TaskOk(w', w'.tasks[s])
    {
      assert TaskOk(w, w.tasks[s]);
    }
  }

  // ---------- Committing ----------

  /** The rows after a change: the user's password row is the new one, nothing else moves. */
  lemma ChangedRows(wraps: seq<WrapRow>, u: Uuid, row: WrapRow, v: Uuid, k: CredentialKind)
    requires row.user == u && row.kind == Password
    ensures Candidates(DeleteKind(wraps, u, Password) + [row], v, k) ==
            if v == u && k == Password then [row] else Candidates(wraps, v, k)
  {
    CandidatesDelete(wraps, u, Password, v, k);
    CandidatesAppend(DeleteKind(wraps, u, Password), [row], v, k);
    assert [row][1..] == [];
  }

  /** The rows after a reset: the user has the new password row and no other. */
  lemma ResetRows(wraps: seq<WrapRow>, u: Uuid, row: WrapRow, v: Uuid, k: CredentialKind)
    requires row.user == u && row.kind == Password
    ensures Candidates(Upsert(DeleteUser(wraps, u), row), v, k) ==
            if v != u then Candidates(wraps, v, k) else if k == Password then [row] else []
    ensures Upsert(DeleteUser(wraps, u), row) == DeleteUser(wraps, u) + [row]
  {
    CandidatesDeleteUser(wraps, u, v, k);
    CandidatesDeleteUser(wraps, u, u, Password);
    UpsertInserts(DeleteUser(wraps, u), row);
    CandidatesAppend(DeleteUser(wraps, u), [row], v, k);
    assert [row][1..] == [];
  }

  lemma ChangeOwnRowsOk(wraps: seq<WrapRow>, user: User, u: Uuid, seed: Bytes, enc: VerifierEnc, row: WrapRow)
    requires |user.login| < U32_MODULUS && |enc.verifier| < U32_MODULUS
    requires user.passwordEnc.Some? ==> |user.passwordEnc.value.verifier| < U32_MODULUS
    requires WrapsOk(wraps, user, u, seed)
    requires row.seedEnc.Sealed? && row == PasswordRow(u, user, enc.verifier, seed, row.seedEnc.nonce)
    ensures WrapsOk(DeleteKind(wraps, u, Password) + [row], user.(passwordEnc := Some(enc)), u, seed)
  {
    ChangedRows(wraps, u, row, u, Password);
    ChangedRows(wraps, u, row, u, OAuth);
  }

  lemma ChangeRowsOk(w: World, w': World, u: Uuid, enc: VerifierEnc, row: WrapRow)
    requires UsersOk(w) && u in w.db.users && u in w.seeds && |enc.verifier| < U32_MODULUS && |w.db.users[u].login| < U32_MODULUS
    requires row.seedEnc.Sealed? && row == PasswordRow(u, w.db.users[u], enc.verifier, w.seeds[u], row.seedEnc.nonce)
    requires w'.db.wraps == DeleteKind(w.db.wraps, u, Password) + [row]
    ensures OthersKept(w.db.wraps, w'.db.wraps, u)
    ensures WrapsOk(w'.db.wraps, w.db.users[u].(passwordEnc := Some(enc)), u, w.seeds[u])
    ensures forall i :: 0 <= i < |w'.db.wraps| ==> w'.db.wraps[i].user in w.db.users
  {
    assert OthersKept(w.db.wraps, w'.db.wraps, u) by {
      forall v, k | v != u
        ensures Candidates(w'.db.wraps, v, k) == Candidates(w.db.wraps, v, k)
      {
        ChangedRows(w.db.wraps, u, row, v, k);
      }
    }
    assert UserOk(w.db.users, w.seeds, w.published, w.retired, u);
    ChangeOwnRowsOk(w.db.wraps, w.db.users[u], u, w.seeds[u], enc, row);
    OwnersKept(w.db.wraps, u, Password, w.db.users.Keys);
  }

  lemma ResetOwnRowsOk(wraps: seq<WrapRow>, user: User, u: Uuid, seed: Bytes, enc: VerifierEnc, row: WrapRow)
    requires |user.login| < U32_MODULUS && |enc.verifier| < U32_MODULUS
    requires row.seedEnc.Sealed? && row == PasswordRow(u, user, enc.verifier, seed, row.seedEnc.nonce)
    ensures WrapsOk(Upsert(DeleteUser(wraps, u), row), user.(passwordEnc := Some(enc)), u, seed)
    ensures Candidates(Upsert(DeleteUser(wraps, u), row), u, OAuth) == []
  {
    ResetRows(wraps, u, row, u, Password);
    ResetRows(wraps, u, row, u, OAuth);
  }

  lemma ResetOwnersOk(wraps: seq<WrapRow>, u: Uuid, row: WrapRow, owners: set<Uuid>)
    requires row.user == u && row.kind == Password && u in owners && forall i :: 0 <= i < |wraps| ==> wraps[i].user in owners
    ensures var rows := Upsert(DeleteUser(wraps, u), row); forall i :: 0 <= i < |rows| ==> rows[i].user in owners
  {
    ResetRows(wraps, u, row, u, Password);
    OwnersKept(wraps, u, Password, owners);
    OwnersKept(DeleteKind(wraps, u, Password), u, OAuth, owners);
  }

  lemma ResetRowsOk(w: World, w': World, u: Uuid, enc: VerifierEnc, seed: Bytes, row: WrapRow)
    requires UsersOk(w) && u in w.db.users && |enc.verifier| < U32_MODULUS && |w.db.users[u].login| < U32_MODULUS
    requires row.seedEnc.Sealed? && row == PasswordRow(u, w.db.users[u], enc.verifier, seed, row.seedEnc.nonce)
    requires w'.db.wraps == Upsert(DeleteUser(w.db.wraps, u), row)
    ensures OthersKept(w.db.wraps, w'.db.wraps, u)
    ensures WrapsOk(w'.db.wraps, w.db.users[u].(passwordEnc := Some(enc)), u, seed)
    ensures Candidates(w'.db.wraps, u, OAuth) == []
    ensures forall i :: 0 <= i < |w'.db.wraps| ==> w'.db.wraps[i].user in w.db.users
  {
    assert OthersKept(w.db.wraps, w'.db.wraps, u) by {
      forall v, k | v != u
        ensures Candidates(w'.db.wraps, v, k) == Candidates(w.db.wraps, v, k)
      {
        ResetRows(w.db.wraps, u, row, v, k);
      }
    }
    ResetOwnRowsOk(w.db.wraps, w.db.users[u], u, seed, enc, row);
    ResetOwnersOk(w.db.wraps, u, row, w.db.users.Keys);
  }

  /** A change whose verifier is still current swaps it; any other change only ends its task. */
  lemma CommitChangeStep(w: World, t: nat, w': World)
    requires Enabled(w, CommitChange(t)) && w' == Next(w, CommitChange(t))
    ensures var task := w.tasks[t];
            if task.uuid in w.db.users && w.db.users[task.uuid].passwordEnc == task.snap.passwordEnc
            then
              && w'.db.users == w.db.users[task.uuid := w.db.users[task.uuid].(passwordEnc := Some(task.enc))]
              && w'.db.wraps == DeleteKind(w.db.wraps, task.uuid, Password) + [task.row]
              && w'.db.requests == w.db.requests
              && w'.published == w.published + {task.enc.verifier}
              && w'.retired == w.retired + {(task.uuid, w.db.users[task.uuid].passwordEnc.value.verifier)}
              && w' == w.(db := w'.db, tasks := w.tasks - {t}, published := w'.published, retired := w'.retired, time := w'.time)
            else w' == w.(tasks := w.tasks - {t}, time := w'.time)
  {
  }

  /** A change whose verifier is still current re-seals the current seed under the new one. */
  lemma ChangeSwaps(w: World, t: nat, w': World)
    requires UsersOk(w) && Enabled(w, CommitChange(t)) && w' == Next(w, CommitChange(t)) && TaskOk(w, w.tasks[t])
    requires w.db.users[w.tasks[t].uuid].passwordEnc == w.tasks[t].snap.passwordEnc
    ensures var task := w.tasks[t]; var u := task.uuid;
            && Swapped(w, w', u, task.enc, task.seed) && w'.seeds == w.seeds
            && OthersKept(w.db.wraps, w'.db.wraps, u)
            && |w.db.users[u].login| < U32_MODULUS
            && WrapsOk(w'.db.wraps, w.db.users[u].(passwordEnc := Some(task.enc)), u, task.seed)
            && (forall i :: 0 <= i < |w'.db.wraps| ==> w'.db.wraps[i].user in w.db.users)
            && Candidates(w'.db.wraps, u, OAuth) == Candidates(w.db.wraps, u, OAuth)
            && (w'.issued, w'.wiped, w'.tasks) == (w.issued, w.wiped, w.tasks - {t})
  {
    var task := w.tasks[t];
    var u := task.uuid;
    CommitChangeStep(w, t, w');
    assert w.seeds == w.seeds[u := task.seed];
    ChangeRowsOk(w, w', u, task.enc, task.row);
    ChangedRows(w.db.wraps, u, task.row, u, OAuth);
  }

  lemma CommitChangeKeeps(w: World, e: Event, w': World)
    requires Valid(w) && e.CommitChange? && Enabled(w, e) && w' == Next(w, e)
    ensures UsersOk(w') && TasksOk(w') && HistoryOk(w')
    ensures w'.seeds == w.seeds
  {
    var task := w.tasks[e.t];
    assert TaskOk(w, task);
    if w.db.users[task.uuid].passwordEnc == task.snap.passwordEnc {
      ChangeSwaps(w, e.t, w');
      assert UsersOk(w') by { SwapUsersOk(w, w', task.uuid, task.enc, task.seed); }
      assert TasksOk(w') by { SwapTasksOk(w, w', e.t, task.uuid, task.enc, task.seed); }
      assert HistoryOk(w') by { SwapHistoryOk(w, w', task.uuid, task.enc, task.seed); }
    } else {
      TaskDropped(w, w', e.t);
    }
  }

  lemma CommitResetKeeps(w: World, e: Event, w': World)
    requires Valid(w) && e.CommitReset? && Enabled(w, e) && w' == Next(w, e)
    ensures UsersOk(w') && TasksOk(w') && HistoryOk(w')
  {
    var task := w.tasks[e.t];
    var u := task.uuid;
    assert TaskOk(w, task);
    if Consumable(w.db, u, task.request, e.now) {
      assert UserOk(w.db.users, w.seeds, w.published, w.retired, u);
      assert task.row == PasswordRow(u, w.db.users[u], task.enc.verifier, task.seed, task.row.seedEnc.nonce);
      ResetRowsOk(w, w', u, task.enc, task.seed, task.row);
      assert UsersOk(w') by { SwapUsersOk(w, w', u, task.enc, task.seed); }
      assert TasksOk(w') by { SwapTasksOk(w, w', e.t, u, task.enc, task.seed); }
      assert HistoryOk(w') by { SwapHistoryOk(w, w', u, task.enc, task.seed); }
    } else {
      TaskDropped(w, w', e.t);
    }
  }

  // ---------- Reset requests ----------

  /** A new request is younger than every reset so far. */
  lemma NewRequestOk(w: World, w': World, id: nat, r: ResetRequest)
    requires ResetsOk(w) && id !in w.db.requests && w'.db.requests == w.db.requests[id := r]
    requires w'.resets == w.resets && w'.time == w.time + 1 && r.createdAt == w'.time
    ensures ResetsOk(w')
  {
  }

  /** A reset consumes an open request and leaves its user with none. */
  lemma ConsumedOk(w: World, w': World, u: Uuid, id: nat)
    requires ResetsOk(w) && id in w.db.requests && OpenFor(w.db.requests[id], u)
    requires w'.db.requests == CloseRequests(w.db.requests, u) && w'.time == w.time + 1
    requires w'.resets == w.resets + [ResetCommit(u, id, w.db.requests[id].createdAt, w'.time)]
    ensures ResetsOk(w')
  {
    var n := |w.resets|;
    assert forall i :: 0 <= i < n ==> w'.resets[i] == w.resets[i] && w.resets[i].request != id;
    assert forall k :: k in w'.db.requests ==> !OpenFor(w'.db.requests[k], u);
    forall i, k | 0 <= i <= n && k in w'.db.requests && OpenFor(w'.db.requests[k], w'.resets[i].user)
      ensures w'.resets[i].at < w'.db.requests[k].createdAt
    {
      assert w'.db.requests[k] == w.db.requests[k];
    }
  }

  lemma CommitResetsOk(w: World, e: Event, w': World)
    requires ResetsOk(w) && e.CommitReset? && Enabled(w, e) && w' == Next(w, e)
    ensures ResetsOk(w')
  {
    var task := w.tasks[e.t];
    if task.uuid in w.db.users && Consumable(w.db, task.uuid, task.request, e.now) {
      ConsumedOk(w, w', task.uuid, task.request);
    }
  }

  lemma ResetsKept(w: World, e: Event, w': World)
    requires ResetsOk(w) && Enabled(w, e) && w' == Next(w, e)
    ensures ResetsOk(w')
  {
    if e.CommitReset? {
      CommitResetsOk(w, e, w');
    } else if e.OpenRequest? {
      NewRequestOk(w, w', e.id, w'.db.requests[e.id]);
    } else {
      assert w'.db.requests == w.db.requests && w'.resets == w.resets;
    }
  }

  // ---------- Whole runs ----------

  lemma TablesUntouched(w: World, w': World)
    requires UsersOk(w) && HistoryOk(w)
    requires (w'.db.users, w'.db.wraps, w'.seeds, w'.published, w'.retired, w'.wiped) ==
             (w.db.users, w.db.wraps, w.seeds, w.published, w.retired, w.wiped)
    ensures UsersOk(w')
    ensures w'.issued == w.issued ==> HistoryOk(w')
  {
  }

  /** Events that leave users, wraps and the seed history alone. */
  predicate Quiet(e: Event) {
    !e.RegisterPassword? && !e.RegisterOAuth? && !e.CommitChange? && !e.CommitReset?
  }

  lemma SameTasks(w: World, w': World)
    requires TasksOk(w)
    requires (w'.db.users, w'.tasks, w'.seeds, w'.published, w'.retired) == (w.db.users, w.tasks, w.seeds, w.published, w.retired)
    ensures TasksOk(w')
  {
    forall t | t in w'.tasks
      ensures TaskOk(w', w'.tasks[t])
    {
      assert TaskOk(w, w.tasks[t]);
    }
  }

  lemma QuietTasks(w: World, e: Event, w': World)
    requires Valid(w) && Quiet(e) && Enabled(w, e) && w' == Next(w, e)
    ensures TasksOk(w')
  {
    if e.ReadChange? || e.ReadReset? {
      ReadKeeps(w, e, w');
    } else if e.PrepareChange? || e.PrepareReset? {
      PrepareKeeps(w, e, w');
    } else if e.Abandon? {
      TaskDropped(w, w', e.t);
    } else {
      SameTasks(w, w');
    }
  }

  lemma QuietKeeps(w: World, e: Event, w': World)
    requires Valid(w) && Quiet(e) && Enabled(w, e) && w' == Next(w, e)
    ensures UsersOk(w') && HistoryOk(w')
  {
    TablesUntouched(w, w');
    if e.Issue? { IssueKeeps(w, e, w'); }
  }

  lemma StepKeepsRows(w: World, e: Event, w': World)
    requires Valid(w) && Enabled(w, e) && w' == Next(w, e)
    ensures UsersOk(w') && TasksOk(w') && HistoryOk(w')
  {
    if e.RegisterPassword? {
      RegisterPasswordKeeps(w, e, w');
    } else if e.RegisterOAuth? {
      RegisterOAuthKeeps(w, e, w');
    } else if e.CommitChange? {
      CommitChangeKeeps(w, e, w');
    } else if e.CommitReset? {
      CommitResetKeeps(w, e, w');
    } else {
      QuietTasks(w, e, w');
      QuietKeeps(w, e, w');
    }
  }

  lemma StepKeeps(w: World, e: Event)
    requires Valid(w) && Enabled(w, e)
    ensures Valid(Next(w, e))
  {
    StepKeepsRows(w, e, Next(w, e));
    ResetsKept(w, e, Next(w, e));
  }

  lemma {:induction false} RunKeeps(w: World, events: seq<Event>)
    requires Valid(w) && Admissible(w, events)
    ensures Valid(Run(w, events))
    decreases |events|
  {
    if events != [] {
      StepKeeps(w, events[0]);
      RunKeeps(Next(w, events[0]), events[1..]);
    }
  }
}
