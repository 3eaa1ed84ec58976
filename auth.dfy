/** The auth service: login through an externally verified Google identity (find the
    user by email or create one, then issue and store a refresh token) and rotation of
    refresh tokens against the refresh-token table. JWTs are abstract values. */
module Auth {
  import opened Common
  import opened Users

  /** Which secret signed a token: the access secret or the refresh secret. */
  datatype TokenKind = Access | Refresh

  /** A signed JWT: its subject claim, the secret that signed it, its lifetime in
      seconds (`expiresIn`) and its issue time in seconds (`iat`). */
  datatype Jwt = Jwt(sub: UserId, kind: TokenKind, lifetime: nat, issuedAt: nat)

  datatype TokenPair = TokenPair(accessToken: Jwt, refreshToken: Jwt)

  const SecondsPerDay := 86400
  /** `expiresIn: '1d'` */
  const AccessLifetime := 1 * SecondsPerDay
  /** `expiresIn: '30d'` */
  const RefreshLifetime := 30 * SecondsPerDay

  const InvalidGoogleMessage := "Invalid Google token"
  /** Every failure of refreshTokens is reported with this one message: the message
      thrown for a missing or revoked record is replaced by the enclosing catch. */
  const InvalidRefreshMessage := "Invalid refresh token"

  /** The `exp` claim: issue time plus lifetime. */
  function Expiry(t: Jwt): nat {
    t.issuedAt + t.lifetime
  }

  /** Verification with the refresh secret: the token was signed with that secret and,
      at time `now`, has not reached its expiry. */
  predicate VerifiesAsRefresh(t: Jwt, now: nat) {
    t.kind == Refresh && now < Expiry(t)
  }

  /** generateTokens: an access token and a refresh token for `userId`, issued at `now`.
      Both name the user; the access token is never accepted by refresh verification;
      the refresh token is accepted for thirty days and outlives the access token. */
  function GenerateTokens(userId: UserId, now: nat): (p: TokenPair)
    ensures p.accessToken.sub == userId && p.refreshToken.sub == userId
    ensures p.accessToken.kind == Access && p.refreshToken.kind == Refresh
    ensures forall t :: !VerifiesAsRefresh(p.accessToken, t)
    ensures forall t :: now <= t < now + RefreshLifetime ==> VerifiesAsRefresh(p.refreshToken, t)
    ensures !VerifiesAsRefresh(p.refreshToken, now + RefreshLifetime)
    ensures Expiry(p.accessToken) == now + AccessLifetime < Expiry(p.refreshToken)
  {
    TokenPair(Jwt(userId, Access, AccessLifetime, now), Jwt(userId, Refresh, RefreshLifetime, now))
  }

  /** A row of the refresh-token table, keyed by the token itself (unique in the store). */
  datatype StoredToken = StoredToken(userId: UserId, revoked: bool)

  type TokenTable = map<Jwt, StoredToken>

  /** `after` keeps every record of `before` with its owner, and a revoked record stays
      revoked. */
  ghost predicate Extends(before: TokenTable, after: TokenTable) {
    forall t :: t in before ==>
      && t in after
      && after[t].userId == before[t].userId
      && (before[t].revoked ==> after[t].revoked)
  }

  /** saveRefreshToken: store `token` for `userId`, unrevoked; the store refuses a token
      that is already in the table. */
  function SaveRefreshTokenStep(tokens: TokenTable, userId: UserId, token: Jwt): (r: Outcome<(), TokenTable>)
    ensures r.result.Ok? <==> token !in tokens
    ensures r.result.Err? ==> r == Outcome(Err(StoreError(UniqueViolation)), tokens)
    ensures r.result.Ok? ==>
      && r.table.Keys == tokens.Keys + {token}
      && r.table[token] == StoredToken(userId, false)
      && forall t :: t in tokens ==> r.table[t] == tokens[t]
    ensures Extends(tokens, r.table)
  {
    if token in tokens then Outcome(Err(StoreError(UniqueViolation)), tokens)
    else Outcome(Ok(()), tokens[token := StoredToken(userId, false)])
  }

  /** refreshTokens: every failure (a token that does not verify, a missing or revoked
      record, a new token the store refuses) is one Unauthorized with nothing written.
      On success the presented record is revoked and one unrevoked record for the same
      user is added, together; every other record is unchanged. */
  function RefreshTokensStep(tokens: TokenTable, presented: Jwt, now: nat): (r: Outcome<TokenPair, TokenTable>)
    ensures r.result.Err? ==> r == Outcome(Err(Unauthorized(InvalidRefreshMessage)), tokens)
    ensures r.result.Ok? <==>
      && VerifiesAsRefresh(presented, now)
      && presented in tokens && !tokens[presented].revoked
      && GenerateTokens(tokens[presented].userId, now).refreshToken !in tokens
    ensures r.result.Ok? ==>
      var owner := tokens[presented].userId;
      var minted := r.result.value.refreshToken;
      && r.result.value == GenerateTokens(owner, now)
      && r.result.value.accessToken.sub == owner && minted.sub == owner
      && minted != presented && minted !in tokens
      && r.table.Keys == tokens.Keys + {minted}
      && r.table[presented] == StoredToken(owner, true)
      && r.table[minted] == StoredToken(owner, false)
      && forall t :: t in tokens && t != presented ==> r.table[t] == tokens[t]
    ensures Extends(tokens, r.table)
  {
    if !VerifiesAsRefresh(presented, now) then
      Outcome(Err(Unauthorized(InvalidRefreshMessage)), tokens)
    else if presented !in tokens || tokens[presented].revoked then
      Outcome(Err(Unauthorized(InvalidRefreshMessage)), tokens)
    else
      var stored := tokens[presented];
      var pair := GenerateTokens(stored.userId, now);
      // One transaction: revoke the presented record and insert the new one. When the
      // insert violates the unique constraint, the whole transaction rolls back.
      var revoked := tokens[presented := stored.(revoked := true)];
      if pair.refreshToken in revoked then
        Outcome(Err(Unauthorized(InvalidRefreshMessage)), tokens)
      else
        Outcome(Ok(pair), revoked[pair.refreshToken := StoredToken(stored.userId, false)])
  }

  /** Presenting the same refresh token a second time fails, whatever the time. */
  lemma RefreshTwiceFails(tokens: TokenTable, presented: Jwt, now1: nat, now2: nat)
    requires RefreshTokensStep(tokens, presented, now1).result.Ok?
    ensures var after := RefreshTokensStep(tokens, presented, now1).table;
      RefreshTokensStep(after, presented, now2) == Outcome(Err(Unauthorized(InvalidRefreshMessage)), after)
  {
  }

  /** A refresh token presented within the second it was issued cannot be rotated: the
      new pair is identical to the old one, so the insert violates the unique constraint
      and the transaction rolls back. */
  lemma SameSecondRotationFails(tokens: TokenTable, userId: UserId, now: nat)
    requires GenerateTokens(userId, now).refreshToken in tokens
    requires tokens[GenerateTokens(userId, now).refreshToken] == StoredToken(userId, false)
    ensures var presented := GenerateTokens(userId, now).refreshToken;
      RefreshTokensStep(tokens, presented, now) == Outcome(Err(Unauthorized(InvalidRefreshMessage)), tokens)
  {
  }

  /** A write to the refresh-token table: a login's saveRefreshToken or a rotation. */
  datatype TokenWrite = Save(userId: UserId, token: Jwt) | Rotate(presented: Jwt, now: nat)

  function ApplyWrite(tokens: TokenTable, w: TokenWrite): TokenTable {
    match w
    case Save(userId, token) => SaveRefreshTokenStep(tokens, userId, token).table
    case Rotate(presented, now) => RefreshTokensStep(tokens, presented, now).table
  }

  function ApplyWrites(tokens: TokenTable, ws: seq<TokenWrite>): TokenTable
    decreases |ws|
  {
    if |ws| == 0 then tokens else ApplyWrites(ApplyWrite(tokens, ws[0]), ws[1..])
  }

  /** No sequence of writes deletes a record, changes its owner or un-revokes it. */
  lemma {:induction false} WritesExtend(tokens: TokenTable, ws: seq<TokenWrite>)
    ensures Extends(tokens, ApplyWrites(tokens, ws))
    decreases |ws|
  {
    if |ws| > 0 {
      var next := ApplyWrite(tokens, ws[0]);
      WritesExtend(next, ws[1..]);
    }
  }

  /** A revoked refresh token can never again be rotated into a new pair. */
  lemma RevokedStaysDead(tokens: TokenTable, ws: seq<TokenWrite>, presented: Jwt, now: nat)
    requires presented in tokens && tokens[presented].revoked
    ensures RefreshTokensStep(ApplyWrites(tokens, ws), presented, now).result.Err?
  {
    WritesExtend(tokens, ws);
  }

  /** The OAuth client's answer: the ID token was rejected, or verified with the payload
      of the ticket (possibly absent). */
  datatype GooglePayload = GooglePayload(email: Option<string>, name: Option<string>, picture: Option<string>)
  datatype Ticket = Rejected | Verified(payload: Option<GooglePayload>)

  /** The profile verifyGoogleIdToken hands to the user upsert. */
  datatype GoogleProfile = GoogleProfile(email: string, name: string, picture: Option<string>)

  /** `email.split('@')[0]`: the part of `email` before its first '@' (all of it when it
      has none). */
  function EmailLocalPart(email: string): (r: string)
    ensures |r| <= |email| && r == email[..|r|]
    ensures '@' !in r
    ensures |r| < |email| ==> email[|r|] == '@'
    decreases |email|
  {
    if |email| == 0 || email[0] == '@' then ""
    else [email[0]] + EmailLocalPart(email[1..])
  }

  /** verifyGoogleIdToken: Unauthorized unless the ticket verified and carries a non-empty
      email; the display name defaults to the email's local part. */
  function VerifyGoogleIdToken(ticket: Ticket): (r: Result<GoogleProfile>)
    ensures r.Err? ==> r == Err(Unauthorized(InvalidGoogleMessage))
    ensures r.Ok? <==>
      (ticket.Verified? && ticket.payload.Some? &&
       ticket.payload.value.email.Some? && ticket.payload.value.email.value != "")
    ensures r.Ok? ==>
      var p := ticket.payload.value;
      && r.value.email == p.email.value
      && r.value.picture == p.picture
      && r.value.name == (if p.name.Some? then p.name.value else EmailLocalPart(p.email.value))
  {
    match ticket
    case Rejected => Err(Unauthorized(InvalidGoogleMessage))
    case Verified(payload) =>
      if payload.None? || payload.value.email.None? || payload.value.email.value == "" then
        Err(Unauthorized(InvalidGoogleMessage))
      else
        var p := payload.value;
        var email := p.email.value;
        Ok(GoogleProfile(email, if p.name.Some? then p.name.value else EmailLocalPart(email), p.picture))
  }

  /** validateOrCreateUser: creates a user only when no user has the profile's email;
      otherwise only that user's last login changes, and the user as read before the
      update is returned. Afterwards exactly one user has the email. */
  function ValidateOrCreateUserStep(users: seq<User>, profile: GoogleProfile, newId: UserId, now: nat)
    : (r: Outcome<User, seq<User>>)
    requires ValidUsers(users) && FreshUserId(users, newId)
    ensures r.result.Ok?
    ensures ValidUsers(r.table)
    ensures r.result.value in r.table || r.result.value.(lastLoginAt := Some(now)) in r.table
    ensures r.result.value.email == profile.email
    ensures CountEmail(r.table, profile.email) == 1
    ensures (forall u :: u in users ==> u.email != profile.email) ==>
      && r.result.value == User(newId, profile.email, profile.name, profile.picture, None)
      && r.table == users + [r.result.value]
    ensures forall u :: u in users && u.email == profile.email ==>
      && r.result.value == u
      && |r.table| == |users|
      && forall i :: 0 <= i < |users| ==>
           r.table[i] == if users[i].id == u.id then users[i].(lastLoginAt := Some(now)) else users[i]
  {
    var found := FindByEmail(users, profile.email);
    if found.None? then
      var created := CreateUserStep(users, profile.email, profile.name, profile.picture, newId);
      assert created.table[|users|] == created.result.value;
      UniqueEmailCount(created.table, profile.email);
      created
    else
      var user := found.value;
      var updated := UpdateLastLoginStep(users, user.id, now);
      var k :| 0 <= k < |users| && users[k].id == user.id && updated.table == users[k := updated.result.value];
      assert updated.table[k] == user.(lastLoginAt := Some(now));
      UniqueEmailCount(updated.table, profile.email);
      Outcome(Ok(user), updated.table)
  }

  /** Two logins with the same email: the second finds the user the first created or
      found, adds no user, and one user with the email remains. */
  lemma LoginTwiceSameUser(users: seq<User>, profile: GoogleProfile, id1: UserId, now1: nat,
                           id2: UserId, now2: nat)
    requires ValidUsers(users) && FreshUserId(users, id1)
    requires FreshUserId(ValidateOrCreateUserStep(users, profile, id1, now1).table, id2)
    ensures var first := ValidateOrCreateUserStep(users, profile, id1, now1);
      var second := ValidateOrCreateUserStep(first.table, profile, id2, now2);
      && second.result.value.id == first.result.value.id
      && |second.table| == |first.table|
      && CountEmail(second.table, profile.email) == 1
  {
  }

  datatype AuthState = AuthState(users: seq<User>, tokens: TokenTable)

  /** What loginWithGoogle returns. */
  datatype Login = Login(user: User, accessToken: Jwt, refreshToken: Jwt)

  /** loginWithGoogle: a rejected ID token is Unauthorized and writes nothing; otherwise
      the user is found or created, a token pair is issued for them and exactly one new
      unrevoked refresh record is stored for them. The user write is not undone when the
      store refuses the refresh token. */
  function LoginWithGoogleStep(s: AuthState, ticket: Ticket, newId: UserId, now: nat): (r: Outcome<Login, AuthState>)
    requires ValidUsers(s.users) && FreshUserId(s.users, newId)
    ensures VerifyGoogleIdToken(ticket).Err? ==> r == Outcome(Err(Unauthorized(InvalidGoogleMessage)), s)
    ensures VerifyGoogleIdToken(ticket).Ok? ==>
      r.table.users == ValidateOrCreateUserStep(s.users, VerifyGoogleIdToken(ticket).value, newId, now).table
    ensures VerifyGoogleIdToken(ticket).Ok? ==>
      var user := ValidateOrCreateUserStep(s.users, VerifyGoogleIdToken(ticket).value, newId, now).result.value;
      (r.result.Ok? <==> GenerateTokens(user.id, now).refreshToken !in s.tokens)
    ensures r.result.Ok? ==>
      var login := r.result.value;
      && login.user == ValidateOrCreateUserStep(s.users, VerifyGoogleIdToken(ticket).value, newId, now).result.value
      && login.accessToken.sub == login.user.id && login.refreshToken.sub == login.user.id
      && login.accessToken == GenerateTokens(login.user.id, now).accessToken
      && login.refreshToken == GenerateTokens(login.user.id, now).refreshToken
      && login.accessToken.kind == Access && VerifiesAsRefresh(login.refreshToken, now)
      && login.refreshToken !in s.tokens
      && r.table.tokens == s.tokens[login.refreshToken := StoredToken(login.user.id, false)]
    ensures r.result.Err? && VerifyGoogleIdToken(ticket).Ok? ==>
      r.result == Err(StoreError(UniqueViolation)) && r.table.tokens == s.tokens
    ensures ValidUsers(r.table.users) && Extends(s.tokens, r.table.tokens)
  {
    match VerifyGoogleIdToken(ticket)
    case Err(e) => Outcome(Err(e), s)
    case Ok(profile) =>
      var upsert := ValidateOrCreateUserStep(s.users, profile, newId, now);
      var user := upsert.result.value;
      var pair := GenerateTokens(user.id, now);
      var saved := SaveRefreshTokenStep(s.tokens, user.id, pair.refreshToken);
      if saved.result.Err? then
        Outcome(Err(saved.result.failure), AuthState(upsert.table, s.tokens))
      else
        Outcome(Ok(Login(user, pair.accessToken, pair.refreshToken)), AuthState(upsert.table, saved.table))
  }

  /** The auth service: the users service it upserts through, and the refresh-token table. */
  class AuthService {
    const usersService: UsersService
    var tokens: TokenTable

    ghost predicate Valid()
      reads this, usersService
    {
      usersService.Valid()
    }

    constructor (users: UsersService, initial: TokenTable)
      requires users.Valid()
      ensures Valid() && usersService == users && tokens == initial
    {
      usersService := users;
      tokens := initial;
    }

    method ValidateOrCreateUser(profile: GoogleProfile, newId: UserId, now: nat) returns (r: Result<User>)
      requires Valid() && FreshUserId(usersService.users, newId)
      modifies usersService
      ensures Valid()
      ensures Outcome(r, usersService.users) ==
        ValidateOrCreateUserStep(old(usersService.users), profile, newId, now)
    {
      var user := FindByEmail(usersService.users, profile.email);
      if user.None? {
        r := usersService.CreateUser(profile.email, profile.name, profile.picture, newId);
      } else {
        var _ := usersService.UpdateLastLogin(user.value.id, now);
        r := Ok(user.value);
      }
    }

    method SaveRefreshToken(userId: UserId, token: Jwt) returns (r: Result<()>)
      modifies this
      ensures Outcome(r, tokens) == SaveRefreshTokenStep(old(tokens), userId, token)
    {
      if token in tokens {
        return Err(StoreError(UniqueViolation));
      }
      tokens := tokens[token := StoredToken(userId, false)];
      r := Ok(());
    }

    method LoginWithGoogle(ticket: Ticket, newId: UserId, now: nat) returns (r: Result<Login>)
      requires Valid() && FreshUserId(usersService.users, newId)
      modifies this, usersService
      ensures Valid()
      ensures Outcome(r, AuthState(usersService.users, tokens)) ==
        LoginWithGoogleStep(old(AuthState(usersService.users, tokens)), ticket, newId, now)
    {
      var profile := VerifyGoogleIdToken(ticket);
      if profile.Err? {
        return Err(profile.failure);
      }
      var user := ValidateOrCreateUser(profile.value, newId, now);
      var pair := GenerateTokens(user.value.id, now);
      var saved := SaveRefreshToken(user.value.id, pair.refreshToken);
      if saved.Err? {
        return Err(saved.failure);
      }
      r := Ok(Login(user.value, pair.accessToken, pair.refreshToken));
    }

    method RefreshTokens(presented: Jwt, now: nat) returns (r: Result<TokenPair>)
      modifies this
      ensures Outcome(r, tokens) == RefreshTokensStep(old(tokens), presented, now)
    {
      if !VerifiesAsRefresh(presented, now) {
        return Err(Unauthorized(InvalidRefreshMessage));
      }
      if presented !in tokens || tokens[presented].revoked {
        return Err(Unauthorized(InvalidRefreshMessage));
      }
      var stored := tokens[presented];
      var pair := GenerateTokens(stored.userId, now);
      if pair.refreshToken in tokens {
        // The insert would violate the unique constraint: the transaction rolls back.
        return Err(Unauthorized(InvalidRefreshMessage));
      }
      tokens := tokens[presented := stored.(revoked := true)][pair.refreshToken := StoredToken(stored.userId, false)];
      r := Ok(pair);
    }
  }
}
