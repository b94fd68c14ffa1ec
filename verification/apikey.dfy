// API keys and token verification: which identity a token stands for.
module ApiKey {
  import opened Wrappers

  datatype Claims = Claims(subject: string, keyId: string, issuer: string)

  datatype Identity = Identity(provider: string, sub: string, email: string)

  datatype Error = BadKey | BadSubject | Revoked | BadToken | NoToken | EmptySecret | EmptyIdentity

  // The signing library and the identity providers, as parameters. verify answers None for a
  // string that is not a token signed with the secret; oidc for one no provider vouches for.
  datatype Config = Config(
    devMode: bool,
    secret: string,
    sign: (string, Claims) -> string,
    verify: (string, string) -> Option<Claims>,
    oidc: Option<string -> Option<Identity>>)

  ghost predicate SigningWorks(cfg: Config) {
    forall c: Claims :: cfg.verify(cfg.secret, cfg.sign(cfg.secret, c)) == Some(c)
  }

  // key id to: revoked or not
  type Keys = map<string, bool>

  // Unknown key ids count as revoked.
  predicate IsRevoked(keys: Keys, keyId: string) {
    keyId in keys ==> keys[keyId]
  }

  // strings.SplitN(s, ":", 2), when it yields two parts.
  function SplitColon(s: string): Option<(string, string)> {
    if s == "" then None
    else if s[0] == ':' then Some(("", s[1..]))
    else
      match SplitColon(s[1..])
      case None => None
      case Some(parts) => Some(([s[0]] + parts.0, parts.1))
  }

  function ParseSubject(subject: string): Result<(string, string), Error> {
    match SplitColon(subject)
    case Some(parts) => if parts.0 == "" || parts.1 == "" then Err(BadSubject) else Ok(parts)
    case None => Err(BadSubject)
  }

  function GenerateKey(cfg: Config, provider: string, sub: string, keyId: string): Result<string, Error> {
    if cfg.secret == "" then Err(EmptySecret)
    else if provider == "" || sub == "" then Err(EmptyIdentity)
    else Ok(cfg.sign(cfg.secret, Claims(provider + ":" + sub, keyId, "phosphor")))
  }

  // The key handler prefers the email to the opaque subject.
  function KeyForCaller(cfg: Config, caller: Identity, keyId: string): Result<string, Error> {
    GenerateKey(cfg, caller.provider, if caller.email != "" then caller.email else caller.sub, keyId)
  }

  function VerifyKey(cfg: Config, raw: string): Result<Claims, Error> {
    match cfg.verify(cfg.secret, raw)
    case Some(c) => if c.issuer == "phosphor" then Ok(c) else Err(BadKey)
    case None => Err(BadKey)
  }

  const PREFIX := "phk:"

  const ANONYMOUS := Identity("dev", "anonymous", "")

  function VerifyToken(cfg: Config, keys: Keys, token: string): Result<Identity, Error> {
    if token == "" && cfg.devMode then Ok(ANONYMOUS)
    else if PREFIX <= token then
      if cfg.devMode then Ok(ANONYMOUS)
      else
        match VerifyKey(cfg, token[|PREFIX|..])
        case Err(e) => Err(e)
        case Ok(c) =>
          if IsRevoked(keys, c.keyId) then Err(Revoked)
          else
            match ParseSubject(c.subject)
            case Ok(parts) => Ok(Identity(parts.0, parts.1, ""))
            case Err(e) => Err(e)
    else if cfg.devMode && SplitColon(token).Some? then
      Ok(Identity(SplitColon(token).value.0, SplitColon(token).value.1, ""))
    else
      match cfg.oidc
      case Some(vouch) =>
        (match vouch(token)
         case Some(id) => Ok(id)
         case None => if cfg.devMode then Ok(ANONYMOUS) else Err(BadToken))
      case None => if cfg.devMode then Ok(ANONYMOUS) else Err(NoToken)
  }

  // Splitting at the first colon undoes joining with one exactly when the first part has none.
  lemma {:induction false} SplitJoin(a: string, b: string)
    ensures SplitColon(a + ":" + b) == Some((a, b)) <==> ':' !in a
    ensures SplitColon(a + ":" + b).Some?
  {
    if a == "" {
      assert a + ":" + b == [':'] + b;
    } else {
      SplitJoin(a[1..], b);
      assert (a + ":" + b)[1..] == a[1..] + ":" + b;
      assert a == [a[0]] + a[1..];
    }
  }

  lemma {:induction false} SplitSound(s: string)
    requires SplitColon(s).Some?
    ensures s == SplitColon(s).value.0 + ":" + SplitColon(s).value.1
    ensures ':' !in SplitColon(s).value.0
  {
    if s[0] != ':' {
      SplitSound(s[1..]);
    }
  }

  // A subject is read back as it was written exactly when the provider has no colon and neither
  // part is empty.
  lemma SubjectRoundTrip(provider: string, sub: string)
    ensures ParseSubject(provider + ":" + sub) == Ok((provider, sub))
       <==> provider != "" && sub != "" && ':' !in provider
  {
    SplitJoin(provider, sub);
  }

  lemma ParsedSubjectIsWhole(subject: string)
    requires ParseSubject(subject).Ok?
    ensures subject == ParseSubject(subject).value.0 + ":" + ParseSubject(subject).value.1
  {
    SplitSound(subject);
  }

  // token is a live key of this identity: signed with the secret and issued here, recorded and
  // not revoked, its subject the provider and the subject joined by a colon.
  ghost predicate KeyProves(cfg: Config, keys: Keys, token: string, id: Identity) {
    && "phk:" <= token
    && id.provider != "" && ':' !in id.provider && id.sub != "" && id.email == ""
    && exists c: Claims ::
         && cfg.verify(cfg.secret, token[4..]) == Some(c)
         && c.issuer == "phosphor" && c.subject == id.provider + ":" + id.sub
         && c.keyId in keys && !keys[c.keyId]
  }

  // token is no key, and an identity provider vouches for it.
  predicate ProviderProves(cfg: Config, token: string, id: Identity) {
    !("phk:" <= token) && cfg.oidc.Some? && cfg.oidc.value(token) == Some(id)
  }

  // In production a token stands for an identity exactly when a live key or a provider proves it.
  lemma ProductionNeedsProof(cfg: Config, keys: Keys, token: string, id: Identity)
    requires !cfg.devMode
    ensures VerifyToken(cfg, keys, token) == Ok(id)
       <==> KeyProves(cfg, keys, token, id) || ProviderProves(cfg, token, id)
  {
    if "phk:" <= token {
      var verified := cfg.verify(cfg.secret, token[4..]);
      if verified.Some? {
        SubjectRoundTrip(id.provider, id.sub);
        if ParseSubject(verified.value.subject).Ok? {
          SplitSound(verified.value.subject);
        }
      }
    }
  }

  // Why a token is refused in production. A key: not signed here, revoked or never recorded, or
  // without two parts to its subject, in this order. Any other token: nobody vouches for it.
  lemma ProductionRefusals(cfg: Config, keys: Keys, token: string)
    requires !cfg.devMode && VerifyToken(cfg, keys, token).Err?
    ensures !("phk:" <= token) ==>
              VerifyToken(cfg, keys, token).error == if cfg.oidc.Some? then BadToken else NoToken
    ensures "phk:" <= token ==>
              VerifyToken(cfg, keys, token).error
              == match cfg.verify(cfg.secret, token[4..])
                 case None => BadKey
                 case Some(c) =>
                   if c.issuer != "phosphor" then BadKey
                   else if c.keyId !in keys || keys[c.keyId] then Revoked else BadSubject
  {
  }

  // In development mode nobody is refused: "provider:subject" is taken at its word, a token that
  // is vouched for stands for its identity, and everything else is the anonymous developer.
  lemma DevelopmentTrustsAll(cfg: Config, keys: Keys, token: string, provider: string, sub: string)
    requires cfg.devMode
    ensures VerifyToken(cfg, keys, token).Ok?
    ensures "phk:" <= token ==> VerifyToken(cfg, keys, token) == Ok(Identity("dev", "anonymous", ""))
    ensures token == provider + ":" + sub && ':' !in provider && !("phk:" <= token) ==>
              VerifyToken(cfg, keys, token) == Ok(Identity(provider, sub, ""))
    ensures ':' !in token ==>
              VerifyToken(cfg, keys, token)
              == if token != "" && cfg.oidc.Some? && cfg.oidc.value(token).Some? then Ok(cfg.oidc.value(token).value)
                 else Ok(Identity("dev", "anonymous", ""))
  {
    SplitJoin(provider, sub);
    if SplitColon(token).Some? {
      SplitSound(token);
    }
    assert "phk:"[3] == ':';
    assert "phk:" <= token ==> token[3] == ':';
  }

  // A key is generated exactly for a non-empty secret, provider and subject, and then it verifies
  // to what it was made of.
  lemma GeneratedKeyVerifies(cfg: Config, provider: string, sub: string, keyId: string)
    requires SigningWorks(cfg)
    ensures GenerateKey(cfg, provider, sub, keyId).Ok? <==> cfg.secret != "" && provider != "" && sub != ""
    ensures GenerateKey(cfg, provider, sub, keyId).Ok? ==>
              VerifyKey(cfg, GenerateKey(cfg, provider, sub, keyId).value)
              == Ok(Claims(provider + ":" + sub, keyId, "phosphor"))
    ensures GenerateKey(cfg, provider, sub, keyId).Err? ==>
              GenerateKey(cfg, provider, sub, keyId).error == if cfg.secret == "" then EmptySecret else EmptyIdentity
  {
  }

  // Users are looked up by provider and subject.
  predicate SameUser(r: Result<Identity, Error>, caller: Identity) {
    r.Ok? && r.value.provider == caller.provider && r.value.sub == caller.sub
  }

  // In production a caller's own fresh key stands for the caller's identity exactly when the
  // provider has no colon and the caller has no email, or an email equal to the subject.
  lemma KeyStandsForCaller(cfg: Config, keys: Keys, caller: Identity, keyId: string)
    requires SigningWorks(cfg) && !cfg.devMode && cfg.secret != ""
    requires caller.provider != "" && caller.sub != ""
    requires keyId in keys && !keys[keyId]
    ensures KeyForCaller(cfg, caller, keyId).Ok?
    ensures SameUser(VerifyToken(cfg, keys, "phk:" + KeyForCaller(cfg, caller, keyId).value), caller)
       <==> ':' !in caller.provider && (caller.email == "" || caller.email == caller.sub)
  {
    var identity := if caller.email != "" then caller.email else caller.sub;
    var c := Claims(caller.provider + ":" + identity, keyId, "phosphor");
    var token := "phk:" + cfg.sign(cfg.secret, c);
    assert token[4..] == cfg.sign(cfg.secret, c);
    assert cfg.verify(cfg.secret, cfg.sign(cfg.secret, c)) == Some(c);
    SplitJoin(caller.provider, identity);
    SplitSound(c.subject);
  }

  // ---- The life of a key in Postgres ----

  // INSERT into api_keys, which fails on a known key id, and the revoking UPDATE.
  datatype KeyOp = Record(keyId: string) | Revoke(keyId: string)

  function AfterOp(keys: Keys, op: KeyOp): Keys {
    match op
    case Record(keyId) => if keyId in keys then keys else keys[keyId := false]
    case Revoke(keyId) => if keyId in keys then keys[keyId := true] else keys
  }

  function KeysAt(ops: seq<KeyOp>, n: nat): Keys
    requires n <= |ops|
  {
    if n == 0 then map[] else AfterOp(KeysAt(ops, n - 1), ops[n - 1])
  }

  lemma {:induction false} RevokedStays(ops: seq<KeyOp>, i: nat, j: nat, keyId: string)
    requires i <= j <= |ops| && keyId in KeysAt(ops, i) && KeysAt(ops, i)[keyId]
    ensures keyId in KeysAt(ops, j) && KeysAt(ops, j)[keyId]
    decreases j
  {
    if i < j {
      RevokedStays(ops, i, j - 1, keyId);
    }
  }

  // The key was first recorded by operation r, and has not been revoked from there up to n.
  predicate GoodSince(ops: seq<KeyOp>, r: nat, n: nat, keyId: string)
    requires n <= |ops|
  {
    && r < n && ops[r] == Record(keyId)
    && (forall m :: 0 <= m < r ==> ops[m] != Record(keyId))
    && (forall m :: r < m < n ==> ops[m] != Revoke(keyId))
  }

  lemma {:induction false} KnownWasRecorded(ops: seq<KeyOp>, n: nat, keyId: string)
    requires n <= |ops|
    ensures keyId in KeysAt(ops, n) <==> exists r :: 0 <= r < n && ops[r] == Record(keyId)
  {
    if n > 0 {
      KnownWasRecorded(ops, n - 1, keyId);
    }
  }

  lemma {:induction false} GoodExactlySince(ops: seq<KeyOp>, n: nat, keyId: string)
    requires n <= |ops|
    ensures !IsRevoked(KeysAt(ops, n), keyId) <==> exists r :: GoodSince(ops, r, n, keyId)
  {
    if n > 0 {
      var op := ops[n - 1];
      GoodExactlySince(ops, n - 1, keyId);
      KnownWasRecorded(ops, n - 1, keyId);
      if !IsRevoked(KeysAt(ops, n), keyId) {
        if keyId !in KeysAt(ops, n - 1) {
          assert GoodSince(ops, n - 1, n, keyId);
        } else {
          var r: nat :| GoodSince(ops, r, n - 1, keyId);
          assert GoodSince(ops, r, n, keyId);
        }
      }
      if r: nat :| GoodSince(ops, r, n, keyId) {
        if r < n - 1 {
          assert GoodSince(ops, r, n - 1, keyId);
        }
      }
    }
  }

  // In production a key is good exactly from its recording to its first revocation after it:
  // before, after, and if it was never recorded, a token made of it counts as revoked.
  lemma KeyWorksExactlyWhileRecorded(cfg: Config, ops: seq<KeyOp>, n: nat, raw: string)
    requires !cfg.devMode && VerifyKey(cfg, raw).Ok? && n <= |ops|
    ensures VerifyToken(cfg, KeysAt(ops, n), "phk:" + raw) != Err(Revoked)
       <==> exists r :: GoodSince(ops, r, n, VerifyKey(cfg, raw).value.keyId)
  {
    assert ("phk:" + raw)[4..] == raw;
    GoodExactlySince(ops, n, VerifyKey(cfg, raw).value.keyId);
  }

  // In particular, once it has been recorded and revoked, nothing that happens later makes it
  // good again.
  lemma RevokedKeyNeverWorksAgain(cfg: Config, ops: seq<KeyOp>, i: nat, j: nat, raw: string)
    requires !cfg.devMode && VerifyKey(cfg, raw).Ok?
    requires i < j <= |ops| && ops[i] == Revoke(VerifyKey(cfg, raw).value.keyId)
    requires VerifyKey(cfg, raw).value.keyId in KeysAt(ops, i)
    ensures VerifyToken(cfg, KeysAt(ops, j), "phk:" + raw) == Err(Revoked)
  {
    assert ("phk:" + raw)[4..] == raw;
    RevokedStays(ops, i + 1, j, VerifyKey(cfg, raw).value.keyId);
  }
}
