/**
 What registration and reset leave behind, over every run that follows: which contexts open for a
 new user, and what exactly a reset changes.
 */
module CredentialExact {
  import opened Options
  import opened CanonicalEncoding
  import opened SeedWrapping
  import opened Credentials
  import opened CredentialRuns
  import opened CredentialTheorems

  // ---------- OAuth rows stay until a reset ----------

  /** A reset of `u` was committed by this step. */
  predicate ResetsBy(w: World, w': World, u: Uuid) {
    |w'.resets| == |w.resets| + 1 && w'.resets[|w.resets|].user == u
  }

  /** Registering somebody else leaves the rows of `u`. */
  lemma RegisterLeavesRows(w: World, e: Event, w': World, u: Uuid, kind: CredentialKind)
    requires UsersOk(w) && Enabled(w, e) && w' == Next(w, e) && (e.RegisterPassword? || e.RegisterOAuth?) && u != e.uuid
    ensures Candidates(w'.db.wraps, u, kind) == Candidates(w.db.wraps, u, kind)
  {
    assert forall i :: 0 <= i < |w.db.wraps| ==> w.db.wraps[i].user != e.uuid;
    var user := w'.db.users[e.uuid];
    if e.RegisterPassword? {
      NewUserWraps(w.db.wraps, PasswordRow(e.uuid, user, e.verifier, e.seed, e.nonce), u, kind);
    } else {
      NewUserWraps(w.db.wraps, OAuthRow(e.uuid, user, e.provider, e.subject, e.seed, e.nonce), u, kind);
    }
  }

  /** What a committed reset does to the tables and the log. */
  lemma CommitResetStep(w: World, t: nat, now: nat, w': World)
    requires Enabled(w, CommitReset(t, now)) && w' == Next(w, CommitReset(t, now))
    ensures var task := w.tasks[t];
            if task.uuid in w.db.users && Consumable(w.db, task.uuid, task.request, now) then
              && w'.db.users == w.db.users[task.uuid := w.db.users[task.uuid].(passwordEnc := Some(task.enc))]
              && w'.db.wraps == Upsert(DeleteUser(w.db.wraps, task.uuid), task.row)
              && w'.db.requests == CloseRequests(w.db.requests, task.uuid)
              && w'.seeds == w.seeds[task.uuid := task.seed]
              && ResetsBy(w, w', task.uuid)
            else w'.db == w.db && w'.seeds == w.seeds && w'.resets == w.resets
  {
  }

  lemma CommitRowsStep(w: World, e: Event, w': World, u: Uuid)
    requires Enabled(w, e) && w' == Next(w, e) && (e.CommitChange? || e.CommitReset?) && TaskOk(w, w.tasks[e.t])
    ensures Candidates(w'.db.wraps, u, OAuth) == Candidates(w.db.wraps, u, OAuth) || ResetsBy(w, w', u)
  {
    var task := w.tasks[e.t];
    if e.CommitChange? {
      CommitChangeStep(w, e.t, w');
      ChangedRows(w.db.wraps, task.uuid, task.row, u, OAuth);
    } else {
      CommitResetStep(w, e.t, e.now, w');
      ResetRows(w.db.wraps, task.uuid, task.row, u, OAuth);
    }
  }

  lemma QuietRowsStep(w: World, e: Event, w': World)
    requires Enabled(w, e) && w' == Next(w, e) && Quiet(e)
    ensures w'.db.wraps == w.db.wraps
  {
  }

  lemma OAuthRowsStep(w: World, e: Event, w': World, u: Uuid)
    requires UsersOk(w) && TasksOk(w) && Enabled(w, e) && w' == Next(w, e) && u in w.db.users
    ensures Candidates(w'.db.wraps, u, OAuth) == Candidates(w.db.wraps, u, OAuth) || ResetsBy(w, w', u)
  {
    if Quiet(e) {
      QuietRowsStep(w, e, w');
    } else if e.CommitChange? || e.CommitReset? {
      CommitRowsStep(w, e, w', u);
    } else {
      RegisterLeavesRows(w, e, w', u, OAuth);
    }
  }

  lemma NoResetSplits(w: World, v: World, w': World, u: Uuid)
    requires w.resets <= v.resets <= w'.resets && NoResetSince(w, w', u)
    ensures NoResetSince(w, v, u) && NoResetSince(v, w', u) && !ResetsBy(w, v, u)
  {
    assert forall j :: 0 <= j < |v.resets| ==> w'.resets[j] == v.resets[j];
  }

  lemma {:induction false} OAuthRowsKept(w: World, events: seq<Event>, w': World, u: Uuid)
    requires Valid(w) && Admissible(w, events) && w' == Run(w, events) && u in w.db.users
    requires |w.resets| <= |w'.resets| && NoResetSince(w, w', u)
    ensures Candidates(w'.db.wraps, u, OAuth) == Candidates(w.db.wraps, u, OAuth)
    decreases |events|
  {
    if events != [] {
      var v := Next(w, events[0]);
      assert u in v.db.users && w.resets <= v.resets by { StepLater(w, events[0]); }
      assert v.resets <= w'.resets by { RunLater(v, events[1..]); }
      NoResetSplits(w, v, w', u);
      OAuthRowsStep(w, events[0], v, u);
      assert Valid(v) by { StepKeeps(w, events[0]); }
      OAuthRowsKept(v, events[1..], w', u);
    }
  }

  /** Over any run without a committed reset of the user, through any number of password changes,
      every OAuth context of the user opens exactly what it opened. */
  lemma OAuthKept(w: World, events: seq<Event>, w': World, u: Uuid, ctx: AuthContext)
    requires Valid(w) && Admissible(w, events) && w' == Run(w, events) && u in w.db.users && ctx.kind == OAuth
    requires |w.resets| <= |w'.resets| && NoResetSince(w, w', u)
    ensures u in w'.db.users && Opened(w'.db, u, ctx) == Opened(w.db, u, ctx)
  {
    OAuthRowsKept(w, events, w', u);
    RunLater(w, events);
    assert w'.db.users[u].project == w'.db.users[u].(passwordEnc := None).project;
    UnwrapFromCandidates(w.db.wraps, w'.db.wraps, u, w.db.users[u].project, ctx);
  }

  // ---------- Registration ----------

  /** A registration under a new uuid is never refused. */
  lemma RegistrationAllowed(w: World, e: Event)
    requires (e.RegisterPassword? || e.RegisterOAuth?) && e.uuid !in w.db.users && |e.login| < U32_MODULUS
    requires e.RegisterPassword? ==> FreshVerifier(w, e.verifier)
    requires e.RegisterOAuth? ==> |e.provider| < U32_MODULUS && |e.subject| < U32_MODULUS
    ensures Enabled(w, e)
  {
  }

  /** One sealed row opens for exactly its own binding and project. */
  lemma OneRowOpens(row: WrapRow, u: Uuid, project: I32, binding: Mac, seed: Bytes, ctx: AuthContext)
    requires row.user == u && row.version == SEED_WRAP_VERSION_V1 && row.kind == ctx.kind && row.seedEnc.Sealed?
    requires row.seedEnc == EncryptSeed(seed, u, project, row.kind, binding, row.seedEnc.nonce)
    ensures Unwrap([row], u, project, ctx) == if ctx.project == project && ctx.binding == binding then Some(seed) else None
  {
    assert [row][1..] == [];
    assert MacBytes(ctx.binding)[0] == OfMac(ctx.binding, 0) && MacBytes(binding)[0] == OfMac(binding, 0);
    if ctx.project == project && SealedFor(row, u, project, ctx.kind, ctx.binding) {
      SeedWrapExact(seed, u, project, row.kind, binding, row.seedEnc.nonce, u, project, row.kind, ctx.binding);
    }
  }

  lemma RegisteredOAuthRow(w: World, e: Event, w': World)
    requires UsersOk(w) && e.RegisterOAuth? && Enabled(w, e) && w' == Next(w, e)
    ensures e.uuid in w'.db.users && w'.db.users[e.uuid] == User(e.project, Email, e.login, None)
    ensures var rows := Candidates(w'.db.wraps, e.uuid, OAuth);
            && |rows| == 1 && rows[0].user == e.uuid && rows[0].kind == OAuth && rows[0].version == SEED_WRAP_VERSION_V1
            && rows[0].seedEnc == EncryptSeed(e.seed, e.uuid, e.project, OAuth,
                                              OAuthAuthBinding(e.project, e.uuid, e.provider, e.subject), e.nonce)
  {
    var row := OAuthRow(e.uuid, w'.db.users[e.uuid], e.provider, e.subject, e.seed, e.nonce);
    NoOwnerNoCandidates(w.db.wraps, e.uuid, OAuth);
    NewUserWraps(w.db.wraps, row, e.uuid, OAuth);
  }

  /** After an OAuth registration, over any run without a reset of the user, an OAuth context of the
      user opens exactly when it is bound to the registered provider and subject, and it opens to
      the registered seed. */
  lemma RegisteredOAuthOpens(w: World, e: Event, events: seq<Event>, w': World, ctx: AuthContext)
    requires Valid(w) && e.RegisterOAuth? && Enabled(w, e) && ctx.kind == OAuth
    requires Admissible(Next(w, e), events) && w' == Run(Next(w, e), events)
    requires |Next(w, e).resets| <= |w'.resets| && NoResetSince(Next(w, e), w', e.uuid)
    ensures e.uuid in w'.db.users
    ensures Opened(w'.db, e.uuid, ctx) ==
            if ctx.project == e.project && ctx.binding == OAuthAuthBinding(e.project, e.uuid, e.provider, e.subject)
            then Some(e.seed) else None
  {
    var w1 := Next(w, e);
    RegisteredOAuthRow(w, e, w1);
    assert Valid(w1) by { StepKeeps(w, e); }
    OAuthKept(w1, events, w', e.uuid, ctx);
    var rows := Candidates(w1.db.wraps, e.uuid, OAuth);
    assert rows == [rows[0]];
    UnwrapOfCandidates(w1.db.wraps, e.uuid, e.project, ctx);
    OneRowOpens(rows[0], e.uuid, e.project, OAuthAuthBinding(e.project, e.uuid, e.provider, e.subject), e.seed, ctx);
  }

  lemma RegisteredUser(w: World, e: Event, w': World)
    requires e.RegisterPassword? && Enabled(w, e) && w' == Next(w, e)
    ensures e.uuid in w'.db.users && e.uuid in w'.seeds && w'.seeds[e.uuid] == e.seed
    ensures w'.db.users[e.uuid] == User(e.project, e.idKind, e.login, Some(VerifierEnc(e.verifier, e.encNonce)))
  {
  }

  /** After a password registration, over any run without a reset of the user, a password context of
      the user opens exactly when it is bound to the registered project, identifier and login and to
      the user's current verifier, and it opens to the registered seed. Right after the
      registration that verifier is the registered one. */
  lemma RegisteredPasswordOpens(w: World, e: Event, events: seq<Event>, w': World, ctx: AuthContext)
    requires Valid(w) && e.RegisterPassword? && Enabled(w, e) && ctx.kind == Password
    requires Admissible(Next(w, e), events) && w' == Run(Next(w, e), events)
    requires |Next(w, e).resets| <= |w'.resets| && NoResetSince(Next(w, e), w', e.uuid)
    ensures HasPassword(Next(w, e).db, e.uuid) && CurrentVerifier(Next(w, e).db, e.uuid) == e.verifier
    ensures e.uuid in w'.db.users && |CurrentVerifier(w'.db, e.uuid)| < U32_MODULUS
    ensures Opened(w'.db, e.uuid, ctx) ==
            if w'.db.users[e.uuid].passwordEnc.Some? && ctx.project == e.project
               && ctx.binding == PasswordAuthBinding(e.project, e.uuid, e.idKind, e.login, CurrentVerifier(w'.db, e.uuid))
            then Some(e.seed) else None
  {
    var w1 := Next(w, e);
    RegisteredUser(w, e, w1);
    assert Valid(w1) && Valid(w') by {
      StepKeeps(w, e);
      RunKeeps(w1, events);
    }
    SeedSurvives(w1, events, w', e.uuid);
    RunLater(w1, events);
    var user := w'.db.users[e.uuid];
    assert (user.project, user.idKind, user.login) == (e.project, e.idKind, e.login) by {
      assert user.(passwordEnc := None) == w1.db.users[e.uuid].(passwordEnc := None);
    }
    assert UserOk(w'.db.users, w'.seeds, w'.published, w'.retired, e.uuid);
    PasswordOpensCurrent(w'.db.wraps, user, e.uuid, w'.seeds[e.uuid], ctx);
  }

  // ---------- A reset, exactly ----------

  /** The request is there, is the user's, is unused and has not expired. */
  predicate Usable(requests: map<nat, ResetRequest>, id: nat, u: Uuid, now: nat) {
    id in requests && requests[id].user == u && !requests[id].isReset && now < requests[id].expires
  }

  /** A committed reset gives the user the new verifier and a single wrap, of the new seed; every
      request of the user is used up and every other request is as it was. */
  ghost predicate ResetLeft(w: World, w': World, u: Uuid, enc: VerifierEnc, seed: Bytes)
    requires u in w.db.users && |w.db.users[u].login| < U32_MODULUS && |enc.verifier| < U32_MODULUS
  {
    && w'.db.users == w.db.users[u := w.db.users[u].(passwordEnc := Some(enc))]
    && u in w'.seeds && w'.seeds[u] == seed
    && |Candidates(w'.db.wraps, u, Password)| == 1 && Candidates(w'.db.wraps, u, OAuth) == []
    && Opened(w'.db, u, AuthContext(Password, w.db.users[u].project, Binding(u, w'.db.users[u], enc.verifier))) == Some(seed)
    && w'.db.requests.Keys == w.db.requests.Keys
    && (forall i :: i in w.db.requests ==>
          w'.db.requests[i] == if w.db.requests[i].user == u then w.db.requests[i].(isReset := true) else w.db.requests[i])
  }

  lemma ResetExactly(w: World, t: nat, now: nat, w': World)
    requires Enabled(w, CommitReset(t, now)) && w' == Next(w, CommitReset(t, now)) && TaskOk(w, w.tasks[t])
    requires |w.db.users[w.tasks[t].uuid].login| < U32_MODULUS
    ensures var task := w.tasks[t];
            if Usable(w.db.requests, task.request, task.uuid, now) then ResetLeft(w, w', task.uuid, task.enc, task.seed)
            else w'.db == w.db
  {
    var task := w.tasks[t];
    CommitResetStep(w, t, now, w');
    if Consumable(w.db, task.uuid, task.request, now) {
      ResetWrapOpens(w.db.wraps, w'.db, task.uuid, w.db.users[task.uuid], task.enc, task.seed, task.row);
    }
  }

  /** A reset commits exactly when its request is usable at commit; a refused one leaves the tables. */
  lemma CommitResetExact(w: World, t: nat, now: nat, w': World)
    requires UsersOk(w) && TasksOk(w) && Enabled(w, CommitReset(t, now)) && w' == Next(w, CommitReset(t, now))
    ensures var task := w.tasks[t];
            && task.uuid in w.db.users && |w.db.users[task.uuid].login| < U32_MODULUS && |task.enc.verifier| < U32_MODULUS
            && if Usable(w.db.requests, task.request, task.uuid, now) then ResetLeft(w, w', task.uuid, task.enc, task.seed)
               else w'.db == w.db
  {
    assert TaskOk(w, w.tasks[t]);
    assert UserOk(w.db.users, w.seeds, w.published, w.retired, w.tasks[t].uuid);
    ResetExactly(w, t, now, w');
  }

  /** The one wrap a reset leaves opens to the new seed under the new verifier. */
  lemma ResetWrapOpens(wraps: seq<WrapRow>, db: Db, u: Uuid, user: User, enc: VerifierEnc, seed: Bytes, row: WrapRow)
    requires |user.login| < U32_MODULUS && |enc.verifier| < U32_MODULUS
    requires row.seedEnc.Sealed? && row == PasswordRow(u, user, enc.verifier, seed, row.seedEnc.nonce)
    requires u in db.users && db.users[u] == user.(passwordEnc := Some(enc)) && db.wraps == Upsert(DeleteUser(wraps, u), row)
    ensures |Candidates(db.wraps, u, Password)| == 1 && Candidates(db.wraps, u, OAuth) == []
    ensures Opened(db, u, AuthContext(Password, user.project, Binding(u, db.users[u], enc.verifier))) == Some(seed)
  {
    ResetOwnRowsOk(wraps, user, u, seed, enc, row);
    PasswordOpensCurrent(db.wraps, db.users[u], u, seed, AuthContext(Password, user.project, Binding(u, db.users[u], enc.verifier)));
  }

  /** A reset leaves everything of every other user. */
  lemma ResetLeavesOthers(w: World, t: nat, now: nat, w': World, v: Uuid, ctx: AuthContext)
    requires TasksOk(w) && Enabled(w, CommitReset(t, now)) && w' == Next(w, CommitReset(t, now))
    requires v in w.db.users && v != w.tasks[t].uuid
    ensures v in w'.db.users && w'.db.users[v] == w.db.users[v] && Opened(w'.db, v, ctx) == Opened(w.db, v, ctx)
  {
    var task := w.tasks[t];
    assert task.row.user == task.uuid && task.row.kind == Password by { assert TaskOk(w, task); }
    CommitResetStep(w, t, now, w');
    if task.uuid in w.db.users && Consumable(w.db, task.uuid, task.request, now) {
      ResetRows(w.db.wraps, task.uuid, task.row, v, ctx.kind);
    }
    UnwrapFromCandidates(w.db.wraps, w'.db.wraps, v, w.db.users[v].project, ctx);
  }

  // ---------- The life of a request ----------

  /** The request stays as it is, except that a committed reset of its user uses it up. */
  lemma RequestStep(w: World, e: Event, w': World, id: nat)
    requires Enabled(w, e) && w' == Next(w, e) && id in w.db.requests
    ensures id in w'.db.requests
    ensures w'.db.requests[id] == w.db.requests[id]
            || (ResetsBy(w, w', w.db.requests[id].user) && w'.db.requests[id] == w.db.requests[id].(isReset := true))
  {
  }

  lemma {:induction false} RequestKept(w: World, events: seq<Event>, w': World, id: nat)
    requires Admissible(w, events) && w' == Run(w, events) && id in w.db.requests
    requires |w.resets| <= |w'.resets| && NoResetSince(w, w', w.db.requests[id].user)
    ensures id in w'.db.requests && w'.db.requests[id] == w.db.requests[id]
    decreases |events|
  {
    if events != [] {
      var v := Next(w, events[0]);
      assert w.resets <= v.resets by { StepLater(w, events[0]); }
      assert v.resets <= w'.resets by { RunLater(v, events[1..]); }
      NoResetSplits(w, v, w', w.db.requests[id].user);
      RequestStep(w, events[0], v, id);
      RequestKept(v, events[1..], w', id);
    }
  }

  /** A request can be used until it expires, as long as no reset of its user commits: over any such
      run after it was opened it is usable by its user exactly before its expiry, and by nobody
      else. */
  lemma RequestUsable(w: World, e: Event, events: seq<Event>, w': World, u: Uuid, now: nat)
    requires e.OpenRequest? && Enabled(w, e) && Admissible(Next(w, e), events) && w' == Run(Next(w, e), events)
    requires |Next(w, e).resets| <= |w'.resets| && NoResetSince(Next(w, e), w', e.uuid)
    ensures Usable(w'.db.requests, e.id, u, now) <==> u == e.uuid && now < e.expires
  {
    RequestKept(Next(w, e), events, w', e.id);
  }
}
