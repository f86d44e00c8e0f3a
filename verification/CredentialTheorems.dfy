/**
 What the credential transactions promise over every interleaved run that starts with tables in
 order: the wrap of a user always fits the user's verifier, a stale change cannot commit, a seed
 changes only through a reset, and old credentials stay revoked. The tables at the start may be
 empty, and they may hold users with a password wrap and OAuth wraps side by side.
 */
module CredentialTheorems {
  import opened Options
  import opened CanonicalEncoding
  import opened SeedWrapping
  import opened Credentials
  import opened CredentialRuns

  /** Tables in order, nothing under way and no history yet. */
  ghost predicate Opening(w: World) {
    && UsersOk(w) && ResetsOk(w)
    && w.tasks == map[] && w.issued == {} && w.retired == {} && w.wiped == {} && w.resets == []
  }

  ghost predicate Reachable(w0: World, events: seq<Event>, w: World) {
    Opening(w0) && Admissible(w0, events) && w == Run(w0, events)
  }

  lemma EmptyOpening()
    ensures Opening(Start())
  {
  }

  lemma ReachableValid(w0: World, events: seq<Event>, w: World)
    requires Reachable(w0, events, w)
    ensures Valid(w)
  {
    RunKeeps(w0, events);
  }

  /** What a context opens for a user. */
  function Opened(db: Db, u: Uuid, ctx: AuthContext): (r: Option<Bytes>)
    requires u in db.users
  {
    Unwrap(db.wraps, u, db.users[u].project, ctx)
  }

  // ---------- The wrap fits the verifier ----------

  /** In every reachable state a user with a verifier has exactly one password wrap, it opens
      under the binding of that verifier and under no other, a user without one has none, and
      whatever opens, of either kind, gives one and the same seed. */
  lemma WrapFitsVerifier(w0: World, events: seq<Event>, w: World, u: Uuid, ctx: AuthContext)
    requires Reachable(w0, events, w) && u in w.db.users
    ensures |w.db.users[u].login| < U32_MODULUS && u in w.seeds
    ensures match w.db.users[u].passwordEnc
            case None => Candidates(w.db.wraps, u, Password) == []
            case Some(enc) =>
              && |enc.verifier| < U32_MODULUS
              && |Candidates(w.db.wraps, u, Password)| == 1
              && Opened(w.db, u, AuthContext(Password, w.db.users[u].project, Binding(u, w.db.users[u], enc.verifier))) == Some(w.seeds[u])
    ensures ctx.kind == Password && Opened(w.db, u, ctx).Some? ==>
              && w.db.users[u].passwordEnc.Some?
              && ctx.binding == Binding(u, w.db.users[u], w.db.users[u].passwordEnc.value.verifier)
    ensures Opened(w.db, u, ctx).Some? ==> Opened(w.db, u, ctx) == Some(w.seeds[u])
  {
    ReachableValid(w0, events, w);
    assert UserOk(w.db.users, w.seeds, w.published, w.retired, u);
    var user := w.db.users[u];
    assert WrapsOk(w.db.wraps, user, u, w.seeds[u]);
    if user.passwordEnc.Some? {
      PasswordOpensCurrent(w.db.wraps, user, u, w.seeds[u],
                           AuthContext(Password, user.project, Binding(u, user, user.passwordEnc.value.verifier)));
    }
    if ctx.kind == Password { PasswordOpensCurrent(w.db.wraps, user, u, w.seeds[u], ctx); }
    if Opened(w.db, u, ctx).Some? { UnwrapsToSeed(w, u, ctx); }
  }

  // ---------- A change commits only on fresh facts ----------

  /** A change commits exactly when no other change or reset of the user committed since it read
      the user; committed or not, it never alters a seed, another user or an OAuth credential. */
  lemma CommitChangeExact(w0: World, events: seq<Event>, w: World, t: nat, w': World)
    requires Reachable(w0, events, w) && Enabled(w, CommitChange(t)) && w' == Next(w, CommitChange(t))
    ensures var ChangeReady(u, snap, enc, seed, row) := w.tasks[t];
            && u in w.db.users && u in w.seeds
            && w'.seeds == w.seeds && w'.db.requests == w.db.requests
            && (if (u, snap.passwordEnc.value.verifier) in w.retired
                then w'.db == w.db
                else
                  && w'.db.users == w.db.users[u := w.db.users[u].(passwordEnc := Some(enc))]
                  && (u, CurrentVerifier(w.db, u)) in w'.retired
                  && |w.db.users[u].login| < U32_MODULUS && |enc.verifier| < U32_MODULUS
                  && Opened(w'.db, u, AuthContext(Password, snap.project, Binding(u, w'.db.users[u], enc.verifier))) == Some(w.seeds[u]))
  {
    ReachableValid(w0, events, w);
    var task := w.tasks[t];
    assert TaskOk(w, task);
    assert UserOk(w.db.users, w.seeds, w.published, w.retired, task.uuid);
    CommitChangeKeeps(w, CommitChange(t), w');
    if (task.uuid, task.snap.passwordEnc.value.verifier) !in w.retired { NewWrapOpens(w, t, w'); }
  }

  /** The wrap a committed change stores opens to the current seed under the new verifier. */
  lemma NewWrapOpens(w: World, t: nat, w': World)
    requires UsersOk(w) && Enabled(w, CommitChange(t)) && w' == Next(w, CommitChange(t)) && TaskOk(w, w.tasks[t])
    requires w.db.users[w.tasks[t].uuid].passwordEnc == w.tasks[t].snap.passwordEnc
    ensures var ChangeReady(u, snap, enc, _, _) := w.tasks[t];
            && u in w'.db.users && u in w.seeds && |w'.db.users[u].login| < U32_MODULUS && |enc.verifier| < U32_MODULUS
            && Opened(w'.db, u, AuthContext(Password, snap.project, Binding(u, w'.db.users[u], enc.verifier))) == Some(w.seeds[u])
  {
    var task := w.tasks[t];
    ChangeSwaps(w, t, w');
    PasswordOpensCurrent(w'.db.wraps, w'.db.users[task.uuid], task.uuid, task.seed,
                         AuthContext(Password, task.snap.project, Binding(task.uuid, w'.db.users[task.uuid], task.enc.verifier)));
  }

  lemma UnwrapFromCandidates(a: seq<WrapRow>, b: seq<WrapRow>, u: Uuid, project: I32, ctx: AuthContext)
    requires Candidates(a, u, ctx.kind) == Candidates(b, u, ctx.kind)
    ensures Unwrap(a, u, project, ctx) == Unwrap(b, u, project, ctx)
  {
    UnwrapOfCandidates(a, u, project, ctx);
    UnwrapOfCandidates(b, u, project, ctx);
  }

  /** A change leaves what every OAuth context opens, and everything of every other user. */
  lemma ChangeLeavesOthers(w0: World, events: seq<Event>, w: World, t: nat, w': World, v: Uuid, ctx: AuthContext)
    requires Reachable(w0, events, w) && Enabled(w, CommitChange(t)) && w' == Next(w, CommitChange(t))
    requires v in w.db.users && (v != w.tasks[t].uuid || ctx.kind == OAuth)
    ensures v in w'.db.users && Opened(w'.db, v, ctx) == Opened(w.db, v, ctx)
  {
    var task := w.tasks[t];
    assert TaskOk(w, task) by { ReachableValid(w0, events, w); }
    CommitChangeStep(w, t, w');
    if w.db.users[task.uuid].passwordEnc == task.snap.passwordEnc {
      ChangedRows(w.db.wraps, task.uuid, task.row, v, ctx.kind);
    }
    UnwrapFromCandidates(w.db.wraps, w'.db.wraps, v, w.db.users[v].project, ctx);
  }

  // ---------- History only grows ----------

  ghost predicate Later(w: World, w': World) {
    && w.retired <= w'.retired && w.wiped <= w'.wiped && w.issued <= w'.issued
    && w.resets <= w'.resets
    && (forall u :: u in w.db.users ==> u in w'.db.users && w'.db.users[u].(passwordEnc := None) == w.db.users[u].(passwordEnc := None))
  }

  lemma StepLater(w: World, e: Event)
    requires Enabled(w, e)
    ensures Later(w, Next(w, e))
  {
  }

  lemma {:induction false} RunLater(w: World, events: seq<Event>)
    requires Admissible(w, events)
    ensures Later(w, Run(w, events))
    decreases |events|
  {
    if events != [] {
      StepLater(w, events[0]);
      RunLater(Next(w, events[0]), events[1..]);
    }
  }

  // ---------- Revocation ----------

  /** A password context opens exactly as long as its verifier has not been replaced. */
  lemma IssuedOpensUnlessRetired(w: World, i: Issued)
    requires Valid(w) && i in w.issued && i.ctx.kind == Password
    ensures i.user in w.db.users
    ensures Opened(w.db, i.user, i.ctx).Some? <==> (i.user, i.verifier) !in w.retired
  {
    assert IssuedOk(w.db.users, w.retired, i);
    assert UserOk(w.db.users, w.seeds, w.published, w.retired, i.user);
    var user := w.db.users[i.user];
    PasswordOpensCurrent(w.db.wraps, user, i.user, w.seeds[i.user], i.ctx);
    if user.passwordEnc.Some? && user.passwordEnc.value.verifier != i.verifier {
      BindingsDiffer(i.user, user, user.passwordEnc.value.verifier, i.verifier);
    }
  }

  lemma BindingsDiffer(u: Uuid, user: User, a: Bytes, b: Bytes)
    requires |user.login| < U32_MODULUS && |a| < U32_MODULUS && |b| < U32_MODULUS && a != b
    ensures Binding(u, user, a) != Binding(u, user, b)
  {
    var f := PasswordBindingFacts(user.project, u, user.idKind, user.login, a);
    var g := PasswordBindingFacts(user.project, u, user.idKind, user.login, b);
    if Message(f) == Message(g) { MessageInjective(f, g); }
  }

  /** A transaction that commits retires the verifier it replaces. */
  lemma CommitRetires(w: World, e: Event, w': World)
    requires Enabled(w, e) && w' == Next(w, e) && (e.CommitChange? || e.CommitReset?) && w'.db != w.db
    ensures (w.tasks[e.t].uuid, CurrentVerifier(w.db, w.tasks[e.t].uuid)) in w'.retired
    ensures w.tasks[e.t].uuid in w.db.users && (e.CommitReset? ==> w.tasks[e.t].uuid in w'.wiped)
  {
  }

  /** A committed change or reset, and any run after it. */
  ghost predicate CommitThenRun(w0: World, events: seq<Event>, w: World, e: Event, more: seq<Event>, w': World) {
    && Reachable(w0, events, w) && Enabled(w, e) && (e.CommitChange? || e.CommitReset?)
    && Next(w, e).db != w.db
    && Admissible(Next(w, e), more) && w' == Run(Next(w, e), more)
  }

  lemma AfterCommit(w0: World, events: seq<Event>, w: World, e: Event, more: seq<Event>, w': World)
    requires CommitThenRun(w0, events, w, e, more, w')
    ensures Valid(w) && Valid(w') && Later(w, w')
    ensures (w.tasks[e.t].uuid, CurrentVerifier(w.db, w.tasks[e.t].uuid)) in w'.retired
    ensures w.tasks[e.t].uuid in w'.db.users && (e.CommitReset? ==> w.tasks[e.t].uuid in w'.wiped)
  {
    assert Valid(w) by { ReachableValid(w0, events, w); }
    assert Valid(w') by {
      StepKeeps(w, e);
      RunKeeps(Next(w, e), more);
    }
    StepLater(w, e);
    RunLater(Next(w, e), more);
    CommitRetires(w, e, Next(w, e));
  }

  /** A committed change or reset ends every password context of the user handed out before it,
      for good. */
  lemma RevokedForever(w0: World, events: seq<Event>, w: World, e: Event, more: seq<Event>, w': World, i: Issued)
    requires CommitThenRun(w0, events, w, e, more, w')
    requires i in w.issued && i.ctx.kind == Password && i.user == w.tasks[e.t].uuid
    ensures i.user in w'.db.users && Opened(w'.db, i.user, i.ctx).None?
  {
    AfterCommit(w0, events, w, e, more, w');
    assert (i.user, i.verifier) in w'.retired by { assert IssuedOk(w.db.users, w.retired, i); }
    IssuedOpensUnlessRetired(w', i);
  }

  /** A committed reset also ends every OAuth context of the user, for good. */
  lemma ResetEndsOAuth(w0: World, events: seq<Event>, w: World, e: Event, more: seq<Event>, w': World, ctx: AuthContext)
    requires CommitThenRun(w0, events, w, e, more, w') && e.CommitReset? && ctx.kind == OAuth
    ensures w.tasks[e.t].uuid in w'.db.users && Opened(w'.db, w.tasks[e.t].uuid, ctx).None?
  {
    AfterCommit(w0, events, w, e, more, w');
    var u := w.tasks[e.t].uuid;
    UnwrapOfCandidates(w'.db.wraps, u, w'.db.users[u].project, ctx);
  }

  /** A change that had read the user before another change or reset of that user committed
      fails as stale whenever it tries to commit, and changes nothing. */
  lemma StaleAfterCommit(w0: World, events: seq<Event>, w: World, e: Event, more: seq<Event>, w': World, t: nat)
    requires CommitThenRun(w0, events, w, e, more, w')
    requires t in w.tasks && w.tasks[t].uuid == w.tasks[e.t].uuid
    requires Enabled(w', CommitChange(t)) && (w'.tasks[t].uuid, w'.tasks[t].snap) == (w.tasks[t].uuid, w.tasks[t].snap)
    ensures Next(w', CommitChange(t)).db == w'.db
  {
    AfterCommit(w0, events, w, e, more, w');
    var u := w.tasks[t].uuid;
    assert TaskOk(w, w.tasks[t]);
    assert (u, w'.tasks[t].snap.passwordEnc.value.verifier) in w'.retired;
    assert UserOk(w'.db.users, w'.seeds, w'.published, w'.retired, u);
    CommitChangeStep(w', t, Next(w', CommitChange(t)));
  }

  // ---------- Seeds ----------

  ghost predicate NoResetSince(w: World, w': World, u: Uuid)
    requires |w.resets| <= |w'.resets|
  {
    forall j :: |w.resets| <= j < |w'.resets| ==> w'.resets[j].user != u
  }

  lemma StepKeepsSeed(w: World, e: Event, w': World, u: Uuid)
    requires Enabled(w, e) && w' == Next(w, e) && u in w.db.users && u in w.seeds
    ensures u in w'.seeds
    ensures w'.seeds[u] == w.seeds[u] || (|w'.resets| == |w.resets| + 1 && w'.resets[|w.resets|].user == u)
  {
  }

  /** As long as no reset of the user commits, every credential of the user, old or new, opens to
      the seed the user had. */
  lemma {:induction false} SeedSurvives(w: World, events: seq<Event>, w': World, u: Uuid)
    requires Valid(w) && Admissible(w, events) && w' == Run(w, events) && u in w.db.users
    requires |w.resets| <= |w'.resets| && NoResetSince(w, w', u)
    ensures u in w.seeds && u in w'.seeds && w'.seeds[u] == w.seeds[u]
    ensures u in w'.db.users
    ensures forall ctx :: Opened(w'.db, u, ctx).Some? ==> Opened(w'.db, u, ctx) == Some(w.seeds[u])
    decreases |events|
  {
    if events == [] {
      assert UserOk(w.db.users, w.seeds, w.published, w.retired, u);
      forall ctx | Opened(w'.db, u, ctx).Some?
        ensures Opened(w'.db, u, ctx) == Some(w.seeds[u])
      {
        UnwrapsToSeed(w, u, ctx);
      }
    } else {
      var v := Next(w, events[0]);
      StepLater(w, events[0]);
      RunLater(v, events[1..]);
      assert NoResetSince(w, v, u) by {
        forall j | |w.resets| <= j < |v.resets|
          ensures v.resets[j].user != u
        {
          assert w'.resets[j] == v.resets[j];
        }
      }
      assert UserOk(w.db.users, w.seeds, w.published, w.retired, u);
      StepKeepsSeed(w, events[0], v, u);
      StepKeeps(w, events[0]);
      SeedSurvives(v, events[1..], w', u);
    }
  }

  // ---------- Reset requests ----------

  /** Every reset used its own request, and a second reset of a user used a request created after
      the first had committed: no request, open or prepared, outlives a reset. */
  lemma ResetsUseFreshRequests(w0: World, events: seq<Event>, w: World, i: nat, j: nat)
    requires Reachable(w0, events, w) && i < j < |w.resets|
    ensures w.resets[i].request != w.resets[j].request
    ensures w.resets[i].user == w.resets[j].user ==> w.resets[i].at < w.resets[j].requestCreated
  {
    ReachableValid(w0, events, w);
  }

  // ---------- A user with both kinds of credential ----------

  /** Tables with one email user who has a password wrap and an OAuth wrap of the same seed. */
  function BothKinds(u: Uuid, project: I32, login: Bytes, verifier: Bytes, provider: Bytes, subject: Bytes, seed: Bytes): (w: World)
    requires |login| < U32_MODULUS && |verifier| < U32_MODULUS && |provider| < U32_MODULUS && |subject| < U32_MODULUS
  {
    var user := User(project, Email, login, Some(VerifierEnc(verifier, 0)));
    World(Db(map[u := user], [PasswordRow(u, user, verifier, seed, 0), OAuthRow(u, user, provider, subject, seed, 0)], map[]),
          map[], map[u := seed], {verifier}, {}, {}, {}, [], 0)
  }

  lemma BothKindsOpening(u: Uuid, project: I32, login: Bytes, verifier: Bytes, provider: Bytes, subject: Bytes, seed: Bytes)
    requires |login| < U32_MODULUS && |verifier| < U32_MODULUS && |provider| < U32_MODULUS && |subject| < U32_MODULUS
    ensures var w := BothKinds(u, project, login, verifier, provider, subject, seed);
            && Opening(w) && HasPassword(w.db, u) && w.db.users[u].idKind == Email
            && Opened(w.db, u, AuthContext(OAuth, project, OAuthAuthBinding(project, u, provider, subject))) == Some(seed)
  {
    var w := BothKinds(u, project, login, verifier, provider, subject, seed);
    var a, b := w.db.wraps[0], w.db.wraps[1];
    assert w.db.wraps == [a] + [b];
    PairRows(a, b, u, Password);
    PairRows(a, b, u, OAuth);
    assert UserOk(w.db.users, w.seeds, w.published, w.retired, u);
    assert WrapsOk(w.db.wraps, w.db.users[u], u, seed);
    var ctx := AuthContext(OAuth, project, OAuthAuthBinding(project, u, provider, subject));
    UnwrapFromCandidates(w.db.wraps, [b], u, project, ctx);
  }

  lemma PairRows(a: WrapRow, b: WrapRow, u: Uuid, kind: CredentialKind)
    requires a.user == u && a.kind == Password && b.user == u && b.kind == OAuth
    ensures Candidates([a] + [b], u, kind) == if kind == Password then [a] else [b]
    ensures kind == OAuth ==> Candidates([b], u, kind) == [b]
  {
    CandidatesAppend([a], [b], u, kind);
    assert [a][1..] == [] && [b][1..] == [];
  }

  lemma RunCons(w: World, e: Event, rest: seq<Event>)
    requires Enabled(w, e) && Admissible(Next(w, e), rest)
    ensures Admissible(w, [e] + rest) && Run(w, [e] + rest) == Run(Next(w, e), rest)
  {
    assert ([e] + rest)[1..] == rest;
  }

  lemma RunTwo(w: World, e: Event, f: Event)
    requires Enabled(w, e) && Enabled(Next(w, e), f)
    ensures Admissible(w, [e, f]) && Run(w, [e, f]) == Next(Next(w, e), f)
  {
    RunCons(Next(w, e), f, []);
    RunCons(w, e, [f]);
    assert [f] + [] == [f] && [e] + [f] == [e, f];
  }

  /** The last event of a change made by a user who came in through `ctx`, after its read and its
      preparation. */
  lemma ChangePrepared(w: World, t: nat, u: Uuid, ctx: AuthContext, verifier: Bytes)
    requires HasPassword(w.db, u) && |w.db.users[u].login| < U32_MODULUS && Opened(w.db, u, ctx).Some?
    requires t !in w.tasks && FreshVerifier(w, verifier)
    ensures var e, f := ReadChange(t, u, ctx), PrepareChange(t, verifier, 0, 0);
            && Enabled(w, e) && Enabled(Next(w, e), f)
            && var w' := Next(Next(w, e), f); var seed := Opened(w.db, u, ctx).value; var user := w.db.users[u];
               w' == w.(tasks := w.tasks[t := ChangeReady(u, user, VerifierEnc(verifier, 0), seed, PasswordRow(u, user, verifier, seed, 0))],
                        time := w.time + 2)
  {
    var e, f := ReadChange(t, u, ctx), PrepareChange(t, verifier, 0, 0);
    var w1 := Next(w, e);
    assert w1 == w.(tasks := w.tasks[t := ChangeRead(u, w.db.users[u], ctx)], time := w.time + 1);
    assert w1.tasks[t := ChangeReady(u, w.db.users[u], VerifierEnc(verifier, 0), Opened(w.db, u, ctx).value,
                                     PasswordRow(u, w.db.users[u], verifier, Opened(w.db, u, ctx).value, 0))] ==
           w.tasks[t := ChangeReady(u, w.db.users[u], VerifierEnc(verifier, 0), Opened(w.db, u, ctx).value,
                                    PasswordRow(u, w.db.users[u], verifier, Opened(w.db, u, ctx).value, 0))];
  }

  /** A change prepared through an OAuth context commits, and the context goes on opening the same
      seed under the new verifier. */
  lemma OAuthOutlivesCommit(w: World, t: nat, ctx: AuthContext)
    requires Enabled(w, CommitChange(t)) && ctx.kind == OAuth
    requires var task := w.tasks[t];
             task.uuid in w.db.users && w.db.users[task.uuid] == task.snap && task.row.user == task.uuid && task.row.kind == Password
    ensures var task := w.tasks[t]; var w' := Next(w, CommitChange(t));
            && w'.db.users == w.db.users[task.uuid := task.snap.(passwordEnc := Some(task.enc))]
            && w'.db.requests == w.db.requests && w'.tasks == w.tasks - {t} && w'.published == w.published + {task.enc.verifier}
            && Opened(w'.db, task.uuid, ctx) == Opened(w.db, task.uuid, ctx)
  {
    var task := w.tasks[t];
    var w' := Next(w, CommitChange(t));
    CommitChangeStep(w, t, w');
    ChangedRows(w.db.wraps, task.uuid, task.row, task.uuid, OAuth);
    UnwrapFromCandidates(w.db.wraps, w'.db.wraps, task.uuid, task.snap.project, ctx);
  }

  /** The events of one password change by a user who came in through `ctx`. */
  function ChangeEvents(t: nat, u: Uuid, ctx: AuthContext, verifier: Bytes): (r: seq<Event>) {
    [ReadChange(t, u, ctx)] + [PrepareChange(t, verifier, 0, 0), CommitChange(t)]
  }

  lemma OAuthOutlivesChange(w: World, t: nat, u: Uuid, ctx: AuthContext, verifier: Bytes)
    requires HasPassword(w.db, u) && |w.db.users[u].login| < U32_MODULUS && ctx.kind == OAuth && Opened(w.db, u, ctx).Some?
    requires t !in w.tasks && FreshVerifier(w, verifier)
    ensures var events := ChangeEvents(t, u, ctx, verifier);
            && Admissible(w, events)
            && var w' := Run(w, events);
               && w'.db.users == w.db.users[u := w.db.users[u].(passwordEnc := Some(VerifierEnc(verifier, 0)))]
               && w'.db.requests == w.db.requests && w'.tasks == w.tasks && w'.published == w.published + {verifier}
               && Opened(w'.db, u, ctx) == Opened(w.db, u, ctx)
  {
    var e, f := ReadChange(t, u, ctx), PrepareChange(t, verifier, 0, 0);
    ChangePrepared(w, t, u, ctx, verifier);
    var w2 := Next(Next(w, e), f);
    OAuthOutlivesCommit(w2, t, ctx);
    assert w2.tasks - {t} == w.tasks;
    RunTwo(Next(w, e), f, CommitChange(t));
    RunCons(w, e, [f, CommitChange(t)]);
  }

  /** The events of one reset, from the request to the commit. */
  function ResetEvents(t: nat, u: Uuid, id: nat, verifier: Bytes, seed: Bytes): (r: seq<Event>) {
    [OpenRequest(id, u, 1)] + ([ReadReset(t, u)] + [PrepareReset(t, id, verifier, seed, 0, 0, 0), CommitReset(t, 0)])
  }

  lemma ResetPrepared(w: World, t: nat, u: Uuid, id: nat, verifier: Bytes, seed: Bytes)
    requires HasPassword(w.db, u) && |w.db.users[u].login| < U32_MODULUS && w.db.users[u].idKind == Email
    requires t !in w.tasks && id !in w.db.requests && FreshVerifier(w, verifier)
    ensures var e, f, g := OpenRequest(id, u, 1), ReadReset(t, u), PrepareReset(t, id, verifier, seed, 0, 0, 0);
            && Enabled(w, e) && Enabled(Next(w, e), f) && Enabled(Next(Next(w, e), f), g)
            && var w' := Next(Next(Next(w, e), f), g);
               && w'.db.users == w.db.users && w'.db.wraps == w.db.wraps && t in w'.tasks
               && w'.tasks[t] == ResetReady(u, w.db.users[u], id, VerifierEnc(verifier, 0), seed, PasswordRow(u, w.db.users[u], verifier, seed, 0))
               && Consumable(w'.db, u, id, 0)
  {
  }

  /** A prepared reset with an open request commits and leaves nothing an OAuth context opens. */
  lemma ResetCommitEnds(w: World, t: nat, ctx: AuthContext)
    requires Enabled(w, CommitReset(t, 0)) && ctx.kind == OAuth
    requires var task := w.tasks[t];
             task.uuid in w.db.users && Consumable(w.db, task.uuid, task.request, 0) && task.row.user == task.uuid && task.row.kind == Password
    ensures var u := w.tasks[t].uuid; var w' := Next(w, CommitReset(t, 0));
            u in w'.db.users && u in w'.wiped && Opened(w'.db, u, ctx).None?
  {
    var task := w.tasks[t];
    var w' := Next(w, CommitReset(t, 0));
    ResetRows(w.db.wraps, task.uuid, task.row, task.uuid, OAuth);
    UnwrapOfCandidates(w'.db.wraps, task.uuid, w'.db.users[task.uuid].project, ctx);
  }

  lemma ResetCommits(w: World, t: nat, u: Uuid, ctx: AuthContext, id: nat, verifier: Bytes, seed: Bytes)
    requires HasPassword(w.db, u) && |w.db.users[u].login| < U32_MODULUS && w.db.users[u].idKind == Email && ctx.kind == OAuth
    requires t !in w.tasks && id !in w.db.requests && FreshVerifier(w, verifier)
    ensures var events := ResetEvents(t, u, id, verifier, seed);
            && Admissible(w, events)
            && var w' := Run(w, events); u in w'.db.users && u in w'.wiped && Opened(w'.db, u, ctx).None?
  {
    var e, f, g, h := OpenRequest(id, u, 1), ReadReset(t, u), PrepareReset(t, id, verifier, seed, 0, 0, 0), CommitReset(t, 0);
    ResetPrepared(w, t, u, id, verifier, seed);
    var w2 := Next(Next(w, e), f);
    ResetCommitEnds(Next(w2, g), t, ctx);
    RunTwo(w2, g, h);
    RunCons(Next(w, e), f, [g, h]);
    RunCons(w, e, [f] + [g, h]);
  }

  /** So the case is real: from tables with such a user, a change leaves the OAuth context open to
      the same seed, and a reset after it ends the context. */
  lemma OAuthAcrossChangeAndReset(u: Uuid, project: I32, login: Bytes, provider: Bytes, subject: Bytes, seed: Bytes,
                                  v1: Bytes, v2: Bytes, v3: Bytes, seed': Bytes)
    requires |login| < U32_MODULUS && |provider| < U32_MODULUS && |subject| < U32_MODULUS
    requires |v1| < U32_MODULUS && |v2| < U32_MODULUS && |v3| < U32_MODULUS && v1 != v2 && v1 != v3 && v2 != v3
    ensures var w := BothKinds(u, project, login, v1, provider, subject, seed);
            var ctx := AuthContext(OAuth, project, OAuthAuthBinding(project, u, provider, subject));
            && Opening(w) && Opened(w.db, u, ctx) == Some(seed)
            && Admissible(w, ChangeEvents(0, u, ctx, v2))
            && var w1 := Run(w, ChangeEvents(0, u, ctx, v2));
               && u in w1.db.users && CurrentVerifier(w1.db, u) == v2 && Opened(w1.db, u, ctx) == Some(seed)
               && Admissible(w1, ResetEvents(0, u, 0, v3, seed'))
               && var w2 := Run(w1, ResetEvents(0, u, 0, v3, seed'));
                  u in w2.db.users && Opened(w2.db, u, ctx).None?
  {
    var w := BothKinds(u, project, login, v1, provider, subject, seed);
    var ctx := AuthContext(OAuth, project, OAuthAuthBinding(project, u, provider, subject));
    BothKindsOpening(u, project, login, v1, provider, subject, seed);
    OAuthOutlivesChange(w, 0, u, ctx, v2);
    var w1 := Run(w, ChangeEvents(0, u, ctx, v2));
    ResetCommits(w1, 0, u, ctx, 0, v3, seed');
  }
}
