/**
 Auth bindings, credential lookup hashes, reset-code MACs and seed wraps. The MAC messages and
 the associated data are the real canonical encodings; HMAC, HKDF and AES-GCM are symbolic:
 a MAC is its key label and message, a wrap key is its salt, a ciphertext is what was sealed.
 The deployment's root key is fixed and left implicit.
 */
module SeedWrapping {
  import opened Options
  import opened CanonicalEncoding

  datatype CredentialKind = Password | OAuth
  datatype IdentifierKind = Email | GuestUuid

  const SEED_WRAP_VERSION_V1: I16 := 1

  function Ascii(s: string): (r: Bytes)
    requires forall i :: 0 <= i < |s| ==> s[i] < 128 as char
    ensures |r| == |s|
  {
    seq(|s|, i requires 0 <= i < |s| => Plain(s[i] as int))
  }

  const AUTH_BINDING_MAC_INFO := Ascii("os.auth-binding-mac.v1")
  const CREDENTIAL_LOOKUP_MAC_INFO := Ascii("os.credential-lookup-mac.v1")
  const PASSWORD_RESET_CODE_MAC_INFO := Ascii("os.password-reset-code-mac.v1")

  const PASSWORD_AUTH_BINDING_DOMAIN := Ascii("os.password-auth-binding.v1")
  const PASSWORD_LOOKUP_DOMAIN := Ascii("os.password-lookup.v1")
  const PASSWORD_RESET_CODE_DOMAIN := Ascii("os.password-reset-code.v1")
  const OAUTH_AUTH_BINDING_DOMAIN := Ascii("os.oauth-auth-binding.v1")
  const OAUTH_LOOKUP_DOMAIN := Ascii("os.oauth-lookup.v1")
  const SEED_WRAP_DOMAIN := Ascii("os.seed-wrap.v1")

  function KindStr(k: CredentialKind): (r: Bytes) {
    match k
    case Password => Ascii("password")
    case OAuth => Ascii("oauth")
  }

  function IdentifierStr(k: IdentifierKind): (r: Bytes) {
    match k
    case Email => Ascii("email")
    case GuestUuid => Ascii("guest_uuid")
  }

  // ---------- Messages ----------

  /** The arguments of the five MAC-input builders and of the associated-data builder. */
  datatype Facts =
    | PasswordBindingFacts(project: I32, user: Uuid, idKind: IdentifierKind, identifier: Bytes, verifier: Bytes)
    | OAuthBindingFacts(project: I32, user: Uuid, provider: Bytes, subject: Bytes)
    | PasswordLookupFacts(project: I32, user: Uuid)
    | OAuthLookupFacts(project: I32, user: Uuid, provider: Bytes, subject: Bytes)
    | ResetCodeFacts(project: I32, user: Uuid, code: Bytes)
    | SeedWrapFacts(user: Uuid, project: I32, kind: CredentialKind, binding: Mac)

  /** Every string argument is short enough for its length field. */
  predicate Fits(f: Facts) {
    match f
    case PasswordBindingFacts(_, _, _, identifier, verifier) => |identifier| < U32_MODULUS && |verifier| < U32_MODULUS
    case OAuthBindingFacts(_, _, provider, subject) => |provider| < U32_MODULUS && |subject| < U32_MODULUS
    case PasswordLookupFacts(_, _) => true
    case OAuthLookupFacts(_, _, provider, subject) => |provider| < U32_MODULUS && |subject| < U32_MODULUS
    case ResetCodeFacts(_, _, code) => |code| < U32_MODULUS
    case SeedWrapFacts(_, _, _, _) => true
  }

  function Fields(f: Facts): (r: seq<Field>) {
    match f
    case PasswordBindingFacts(project, user, idKind, identifier, verifier) =>
      [StrField(PASSWORD_AUTH_BINDING_DOMAIN), I32Field(project), UuidField(user),
       StrField(IdentifierStr(idKind)), StrField(identifier), StrField(verifier)]
    case OAuthBindingFacts(project, user, provider, subject) =>
      [StrField(OAUTH_AUTH_BINDING_DOMAIN), I32Field(project), UuidField(user), StrField(provider), StrField(subject)]
    case PasswordLookupFacts(project, user) =>
      [StrField(PASSWORD_LOOKUP_DOMAIN), I32Field(project), UuidField(user)]
    case OAuthLookupFacts(project, user, provider, subject) =>
      [StrField(OAUTH_LOOKUP_DOMAIN), I32Field(project), UuidField(user), StrField(provider), StrField(subject)]
    case ResetCodeFacts(project, user, code) =>
      [StrField(PASSWORD_RESET_CODE_DOMAIN), I32Field(project), UuidField(user), StrField(code)]
    case SeedWrapFacts(user, project, kind, binding) =>
      [StrField(SEED_WRAP_DOMAIN), UuidField(user), I32Field(project), StrField(KindStr(kind)),
       I16Field(SEED_WRAP_VERSION_V1), BytesField(MacBytes(binding))]
  }

  lemma FieldsSized(f: Facts)
    requires Fits(f)
    ensures AllSized(Fields(f))
  {
  }

  function Message(f: Facts): (r: Bytes)
    requires Fits(f)
  {
    FieldsSized(f);
    Encode(Fields(f))
  }

  function DomainOf(f: Facts): (r: Bytes)
    ensures Fields(f)[0] == StrField(r)
  {
    match f
    case PasswordBindingFacts(_, _, _, _, _) => PASSWORD_AUTH_BINDING_DOMAIN
    case OAuthBindingFacts(_, _, _, _) => OAUTH_AUTH_BINDING_DOMAIN
    case PasswordLookupFacts(_, _) => PASSWORD_LOOKUP_DOMAIN
    case OAuthLookupFacts(_, _, _, _) => OAUTH_LOOKUP_DOMAIN
    case ResetCodeFacts(_, _, _) => PASSWORD_RESET_CODE_DOMAIN
    case SeedWrapFacts(_, _, _, _) => SEED_WRAP_DOMAIN
  }

  /** The six domain strings differ already in length. */
  lemma DomainsDiffer(f: Facts, g: Facts)
    requires DomainOf(f) == DomainOf(g)
    ensures f.PasswordBindingFacts? == g.PasswordBindingFacts?
    ensures f.OAuthBindingFacts? == g.OAuthBindingFacts?
    ensures f.PasswordLookupFacts? == g.PasswordLookupFacts?
    ensures f.OAuthLookupFacts? == g.OAuthLookupFacts?
    ensures f.ResetCodeFacts? == g.ResetCodeFacts?
  {
    assert |PASSWORD_AUTH_BINDING_DOMAIN| == 27 && |OAUTH_AUTH_BINDING_DOMAIN| == 24;
    assert |PASSWORD_LOOKUP_DOMAIN| == 21 && |OAUTH_LOOKUP_DOMAIN| == 18;
    assert |PASSWORD_RESET_CODE_DOMAIN| == 25 && |SEED_WRAP_DOMAIN| == 15;
  }

  lemma NamesDiffer()
    ensures IdentifierStr(Email) != IdentifierStr(GuestUuid)
    ensures KindStr(Password) != KindStr(OAuth)
  {
    assert |IdentifierStr(Email)| != |IdentifierStr(GuestUuid)|;
    assert |KindStr(Password)| != |KindStr(OAuth)|;
  }

  lemma FieldsInjective(f: Facts, g: Facts)
    requires Fields(f) == Fields(g)
    ensures f == g
  {
    var a, b := Fields(f), Fields(g);
    assert a[0] == b[0];
    DomainsDiffer(f, g);
    NamesDiffer();
    assert a[1] == b[1] && a[2] == b[2];
    I32FieldInjective(f.project, g.project);
    if f.SeedWrapFacts? {
      assert a[3] == b[3] && a[5] == b[5];
      assert MacBytes(f.binding)[0] == MacBytes(g.binding)[0];
    } else if f.PasswordBindingFacts? {
      assert a[3] == b[3] && a[4] == b[4] && a[5] == b[5];
    } else if f.OAuthBindingFacts? || f.OAuthLookupFacts? {
      assert a[3] == b[3] && a[4] == b[4];
    } else if f.ResetCodeFacts? {
      assert a[3] == b[3];
    }
  }

  /** All builders together are injective: equal messages come from the same builder with equal
      arguments. So each is injective and no two can produce the same bytes. */
  lemma MessageInjective(f: Facts, g: Facts)
    requires Fits(f) && Fits(g) && Message(f) == Message(g)
    ensures f == g
  {
    FieldsSized(f);
    FieldsSized(g);
    assert Fields(f) == Fields(g) by { EncodingInjective(Fields(f), Fields(g)); }
    FieldsInjective(f, g);
  }

  // ---------- MACs ----------

  function PasswordAuthBinding(project: I32, user: Uuid, idKind: IdentifierKind, identifier: Bytes, verifier: Bytes): (r: Mac)
    requires |identifier| < U32_MODULUS && |verifier| < U32_MODULUS
  {
    Mac(AUTH_BINDING_MAC_INFO, Message(PasswordBindingFacts(project, user, idKind, identifier, verifier)))
  }

  function OAuthAuthBinding(project: I32, user: Uuid, provider: Bytes, subject: Bytes): (r: Mac)
    requires |provider| < U32_MODULUS && |subject| < U32_MODULUS
  {
    Mac(AUTH_BINDING_MAC_INFO, Message(OAuthBindingFacts(project, user, provider, subject)))
  }

  function PasswordLookupHash(project: I32, user: Uuid): (r: Mac) {
    Mac(CREDENTIAL_LOOKUP_MAC_INFO, Message(PasswordLookupFacts(project, user)))
  }

  function OAuthLookupHash(project: I32, user: Uuid, provider: Bytes, subject: Bytes): (r: Mac)
    requires |provider| < U32_MODULUS && |subject| < U32_MODULUS
  {
    Mac(CREDENTIAL_LOOKUP_MAC_INFO, Message(OAuthLookupFacts(project, user, provider, subject)))
  }

  function ResetCodeMac(project: I32, user: Uuid, code: Bytes): (r: Mac)
    requires |code| < U32_MODULUS
  {
    Mac(PASSWORD_RESET_CODE_MAC_INFO, Message(ResetCodeFacts(project, user, code)))
  }

  /** The builder as the source runs it: the fields go into one buffer, one after the other. */
  method ComputePasswordAuthBinding(project: I32, user: Uuid, idKind: IdentifierKind, identifier: Bytes, verifier: Bytes)
    returns (r: Mac)
    requires |identifier| < U32_MODULUS && |verifier| < U32_MODULUS
    ensures r == PasswordAuthBinding(project, user, idKind, identifier, verifier)
  {
    var facts := new CanonicalBytes(PASSWORD_AUTH_BINDING_DOMAIN);
    facts.AppendI32(project);
    facts.AppendUuid(user);
    facts.AppendStr(IdentifierStr(idKind));
    facts.AppendStr(identifier);
    facts.AppendStr(verifier);
    assert facts.fields == Fields(PasswordBindingFacts(project, user, idKind, identifier, verifier));
    r := Mac(AUTH_BINDING_MAC_INFO, facts.bytes);
  }

  method ComputeOAuthAuthBinding(project: I32, user: Uuid, provider: Bytes, subject: Bytes) returns (r: Mac)
    requires |provider| < U32_MODULUS && |subject| < U32_MODULUS
    ensures r == OAuthAuthBinding(project, user, provider, subject)
  {
    var facts := new CanonicalBytes(OAUTH_AUTH_BINDING_DOMAIN);
    facts.AppendI32(project);
    facts.AppendUuid(user);
    facts.AppendStr(provider);
    facts.AppendStr(subject);
    assert facts.fields == Fields(OAuthBindingFacts(project, user, provider, subject));
    r := Mac(AUTH_BINDING_MAC_INFO, facts.bytes);
  }

  method ComputePasswordLookupHash(project: I32, user: Uuid) returns (r: Mac)
    ensures r == PasswordLookupHash(project, user)
  {
    var facts := new CanonicalBytes(PASSWORD_LOOKUP_DOMAIN);
    facts.AppendI32(project);
    facts.AppendUuid(user);
    assert facts.fields == Fields(PasswordLookupFacts(project, user));
    r := Mac(CREDENTIAL_LOOKUP_MAC_INFO, facts.bytes);
  }

  method ComputeOAuthLookupHash(project: I32, user: Uuid, provider: Bytes, subject: Bytes) returns (r: Mac)
    requires |provider| < U32_MODULUS && |subject| < U32_MODULUS
    ensures r == OAuthLookupHash(project, user, provider, subject)
  {
    var facts := new CanonicalBytes(OAUTH_LOOKUP_DOMAIN);
    facts.AppendI32(project);
    facts.AppendUuid(user);
    facts.AppendStr(provider);
    facts.AppendStr(subject);
    assert facts.fields == Fields(OAuthLookupFacts(project, user, provider, subject));
    r := Mac(CREDENTIAL_LOOKUP_MAC_INFO, facts.bytes);
  }

  method ComputeResetCodeMac(project: I32, user: Uuid, code: Bytes) returns (r: Mac)
    requires |code| < U32_MODULUS
    ensures r == ResetCodeMac(project, user, code)
  {
    var facts := new CanonicalBytes(PASSWORD_RESET_CODE_DOMAIN);
    facts.AppendI32(project);
    facts.AppendUuid(user);
    facts.AppendStr(code);
    assert facts.fields == Fields(ResetCodeFacts(project, user, code));
    r := Mac(PASSWORD_RESET_CODE_MAC_INFO, facts.bytes);
  }

  method ComputeSeedWrapAad(user: Uuid, project: I32, kind: CredentialKind, binding: Mac) returns (r: Bytes)
    ensures r == Message(SeedWrapFacts(user, project, kind, binding))
  {
    var aad := new CanonicalBytes(SEED_WRAP_DOMAIN);
    aad.AppendUuid(user);
    aad.AppendI32(project);
    aad.AppendStr(KindStr(kind));
    aad.AppendI16(SEED_WRAP_VERSION_V1);
    aad.AppendBytes(MacBytes(binding));
    assert aad.fields == Fields(SeedWrapFacts(user, project, kind, binding));
    r := aad.bytes;
  }

  /** A password binding is never an OAuth binding. */
  lemma BindingsDisjoint(project: I32, user: Uuid, idKind: IdentifierKind, identifier: Bytes, verifier: Bytes,
                         project': I32, user': Uuid, provider: Bytes, subject: Bytes)
    requires |identifier| < U32_MODULUS && |verifier| < U32_MODULUS && |provider| < U32_MODULUS && |subject| < U32_MODULUS
    ensures PasswordAuthBinding(project, user, idKind, identifier, verifier) != OAuthAuthBinding(project', user', provider, subject)
  {
    var f := PasswordBindingFacts(project, user, idKind, identifier, verifier);
    var g := OAuthBindingFacts(project', user', provider, subject);
    if Message(f) == Message(g) { MessageInjective(f, g); }
  }

  /** A reset code looked up by its MAC is found only for the user, project and code it was made
      for. */
  lemma ResetCodeExact(project: I32, user: Uuid, code: Bytes, project': I32, user': Uuid, code': Bytes)
    requires |code| < U32_MODULUS && |code'| < U32_MODULUS
    ensures ResetCodeMac(project, user, code) == ResetCodeMac(project', user', code') <==>
              (project, user, code) == (project', user', code')
  {
    var f, g := ResetCodeFacts(project, user, code), ResetCodeFacts(project', user', code');
    if Message(f) == Message(g) { MessageInjective(f, g); }
  }

  // ---------- Sealing ----------

  datatype AeadKey = Derived(salt: Bytes)

  /** A stored ciphertext: something sealed, or bytes that nothing was sealed into. */
  datatype Ciphertext =
    | Sealed(key: AeadKey, nonce: nat, plaintext: Bytes, aad: Bytes)
    | Garbled(bytes: Bytes)

  function DecryptAead(key: AeadKey, c: Ciphertext, aad: Bytes): (r: Option<Bytes>) {
    if c.Sealed? && c.key == key && c.aad == aad then Some(c.plaintext) else None
  }

  function SeedWrapKey(binding: Mac): (r: AeadKey) {
    Derived(MacBytes(binding))
  }

  function EncryptSeed(seed: Bytes, user: Uuid, project: I32, kind: CredentialKind, binding: Mac, nonce: nat): (r: Ciphertext) {
    Sealed(SeedWrapKey(binding), nonce, seed, Message(SeedWrapFacts(user, project, kind, binding)))
  }

  function DecryptSeed(c: Ciphertext, user: Uuid, project: I32, kind: CredentialKind, binding: Mac): (r: Option<Bytes>) {
    DecryptAead(SeedWrapKey(binding), c, Message(SeedWrapFacts(user, project, kind, binding)))
  }

  /** A seed wrap opens for exactly the user, project, credential kind and binding it was made
      for, and then gives back the seed. */
  lemma SeedWrapExact(seed: Bytes, user: Uuid, project: I32, kind: CredentialKind, binding: Mac, nonce: nat,
                      user': Uuid, project': I32, kind': CredentialKind, binding': Mac)
    ensures DecryptSeed(EncryptSeed(seed, user, project, kind, binding, nonce), user', project', kind', binding') ==
            if (user, project, kind, binding) == (user', project', kind', binding') then Some(seed) else None
  {
    var f, g := SeedWrapFacts(user, project, kind, binding), SeedWrapFacts(user', project', kind', binding');
    if Message(f) == Message(g) { MessageInjective(f, g); }
  }

  // ---------- Unwrapping ----------

  datatype WrapRow = WrapRow(user: Uuid, kind: CredentialKind, lookup: Mac, version: I16, seedEnc: Ciphertext)

  datatype AuthContext = AuthContext(kind: CredentialKind, project: I32, binding: Mac)

  /** The row was sealed, as version 1, for these facts. */
  predicate SealedFor(row: WrapRow, user: Uuid, project: I32, kind: CredentialKind, binding: Mac) {
    && row.user == user && row.kind == kind && row.version == SEED_WRAP_VERSION_V1
    && row.seedEnc.Sealed?
    && row.seedEnc == EncryptSeed(row.seedEnc.plaintext, user, project, kind, binding, row.seedEnc.nonce)
  }

  /** A version-1 row of the user and kind decrypts exactly when it was sealed for these facts. */
  lemma DecryptsWhenSealed(row: WrapRow, user: Uuid, project: I32, kind: CredentialKind, binding: Mac)
    requires row.user == user && row.kind == kind && row.version == SEED_WRAP_VERSION_V1
    ensures DecryptSeed(row.seedEnc, user, project, kind, binding) ==
            if SealedFor(row, user, project, kind, binding) then Some(row.seedEnc.plaintext) else None
  {
  }

  /** The first row in id order that was sealed for the context; the reference for the loop. */
  function Unwrap(rows: seq<WrapRow>, user: Uuid, project: I32, ctx: AuthContext): (r: Option<Bytes>) {
    if project != ctx.project || rows == [] then None
    else if SealedFor(rows[0], user, project, ctx.kind, ctx.binding) then Some(rows[0].seedEnc.plaintext)
    else Unwrap(rows[1..], user, project, ctx)
  }

  /** The candidates the query returns: the user's rows of one kind, in id order. */
  function Candidates(rows: seq<WrapRow>, user: Uuid, kind: CredentialKind): (r: seq<WrapRow>) {
    if rows == [] then []
    else if rows[0].user == user && rows[0].kind == kind then [rows[0]] + Candidates(rows[1..], user, kind)
    else Candidates(rows[1..], user, kind)
  }

  /** Tries decryption on every version-1 candidate and stops at the first that opens. */
  method TryCandidates(candidates: seq<WrapRow>, user: Uuid, ctx: AuthContext) returns (r: Option<Bytes>)
    requires forall i :: 0 <= i < |candidates| ==> candidates[i].user == user && candidates[i].kind == ctx.kind
    ensures r == Unwrap(candidates, user, ctx.project, ctx)
  {
    var n := 0;
    while n < |candidates|
      invariant 0 <= n <= |candidates|
      invariant Unwrap(candidates[n..], user, ctx.project, ctx) == Unwrap(candidates, user, ctx.project, ctx)
    {
      assert candidates[n..][1..] == candidates[n + 1..];
      if candidates[n].version == SEED_WRAP_VERSION_V1 {
        DecryptsWhenSealed(candidates[n], user, ctx.project, ctx.kind, ctx.binding);
        var seed := DecryptSeed(candidates[n].seedEnc, user, ctx.project, ctx.kind, ctx.binding);
        if seed.Some? {
          return seed;
        }
      }
      n := n + 1;
    }
    r := None;
  }

  /** Unwrapping succeeds exactly when some version-1 row was sealed for the same user, project,
      kind and binding, and then returns that row's seed. */
  method DecryptSeedForAuthContext(rows: seq<WrapRow>, user: Uuid, project: I32, ctx: AuthContext) returns (r: Option<Bytes>)
    ensures r == Unwrap(rows, user, project, ctx)
    ensures r.Some? <==>
              project == ctx.project &&
              exists i :: 0 <= i < |rows| && SealedFor(rows[i], user, project, ctx.kind, ctx.binding)
  {
    UnwrapFinds(rows, user, project, ctx);
    if project != ctx.project {
      return None;
    }
    UnwrapOfCandidates(rows, user, project, ctx);
    r := TryCandidates(Candidates(rows, user, ctx.kind), user, ctx);
  }

  lemma {:induction false} UnwrapOfCandidates(rows: seq<WrapRow>, user: Uuid, project: I32, ctx: AuthContext)
    ensures var cs := Candidates(rows, user, ctx.kind);
            && Unwrap(cs, user, project, ctx) == Unwrap(rows, user, project, ctx)
            && forall i :: 0 <= i < |cs| ==> cs[i].user == user && cs[i].kind == ctx.kind
  {
    if rows != [] {
      UnwrapOfCandidates(rows[1..], user, project, ctx);
      var cs := Candidates(rows, user, ctx.kind);
      if rows[0].user == user && rows[0].kind == ctx.kind {
        assert cs[1..] == Candidates(rows[1..], user, ctx.kind);
      }
    }
  }

  lemma {:induction false} UnwrapFinds(rows: seq<WrapRow>, user: Uuid, project: I32, ctx: AuthContext)
    ensures Unwrap(rows, user, project, ctx).Some? <==>
              project == ctx.project &&
              exists i :: 0 <= i < |rows| && SealedFor(rows[i], user, project, ctx.kind, ctx.binding)
  {
    if rows != [] {
      UnwrapFinds(rows[1..], user, project, ctx);
      assert forall i :: 0 < i < |rows| ==> rows[i] == rows[1..][i - 1];
      assert forall i :: 0 <= i < |rows| - 1 ==> rows[1..][i] == rows[i + 1];
    }
  }
}
