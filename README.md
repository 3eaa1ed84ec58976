# Identity and relationship core of a social/chat backend, in Dafny

This project models the four services that hold the backend's real behaviour, plus the
user table the auth service relies on:

- **Friendship state machine** (`Friends`): one friendship row per pair of users, with a
  direction (requester → addressee) and a status (PENDING, ACCEPTED, BLOCKED). It covers
  sending a request (directly or through a QR token), accepting, rejecting (which deletes
  the row), blocking (which overwrites or creates the row, directed from the blocker), and
  the friend and pending-request lists.
- **Login and refresh-token rotation** (`Auth`, over `Users`): login upserts the user by
  email and stores one new unrevoked refresh token. Rotation revokes the presented record
  and inserts the new one in one transaction. It fails with a single generic
  Unauthorized otherwise.
- **Conversations** (`Conversations`): create-or-get of a direct conversation, group
  creation over the de-duplicated member list, listing newest first, and a
  membership-checked read.
- **QR capability tokens** (`Qr`): one lazily created token per user, its reverse lookup
  and the deep link built from it.

Each store table is a value: a `seq` of rows, or a `map` keyed by token for refresh
tokens. Every operation that writes to a table is modelled twice:
- a transition function `…Step(table, …)` returns an `Outcome(result, newTable)`. Its
  `ensures` state what the operation promises.
- a method of the service class (`FriendsService`, `AuthService`, …) changes the class's
  table field through the same steps as the source. The method is proved equal to its
  transition function.

Read-only queries are functions over the table value. A class invariant `Valid()` is
the table invariant of the class's table. Every method that writes that table requires
it and re-establishes it. The refresh-token map carries no invariant, so
`AuthService.SaveRefreshToken` and `AuthService.RefreshTokens` neither need nor state
`Valid()`; the `AuthService` methods that go through the users service require and keep
its invariant.

Collaborators outside the model are inputs:
- ids and the UUID the store or `randomUUID` would produce are parameters, each required
  not to be in the table yet;
- the clock (`new Date()`, a JWT's `iat`) is a parameter `now`, in seconds;
- the Google verifier's answer is a `Ticket`;
- the configured deep-link base is an `Option<string>`.

A JWT is the abstract value `Jwt(sub, kind, lifetime, issuedAt)`. Here `kind` names the
secret that signed it. Verifying with the refresh secret accepts a token of kind
`Refresh` whose `issuedAt + lifetime` has not been reached.

Errors are `Failure` values. The service's own exceptions are `BadRequest`, `NotFound`
and `Unauthorized`, each with the source's message. `StoreError` is a store error the
service does not catch: a violated unique constraint, or an update of a missing row.

## Behaviour worth noting

The model follows the code in each of these points:
- Every guard failure in the friends and conversations services is a `BadRequest` or a
  `NotFound` ("Already friends", "Friend request already pending", …). There is no
  conflict kind of error.
- `createOrGetDirectConversation` and `createGroupConversation` never check that the
  target or the member users exist. No NotFound names a missing member.
- The direct-conversation lookup matches any non-group conversation that contains both
  users. It does not match on "exactly these two participants". Because this service only
  creates direct conversations with exactly two distinct participants (part of the table
  invariant), the result always has exactly those two participants.
- There is no retry when a concurrent create violates a unique constraint.
- A JWT carries only `sub`, `iat` and `exp`. A refresh token presented in the same second
  it was issued therefore produces an identical new token. The insert violates the unique
  constraint, the transaction rolls back and the call fails Unauthorized
  (`Auth.SameSecondRotationFails`). For the same reason, a second login of the same user
  within one second fails with a store error after the user row has already been
  updated.
- `validateOrCreateUser` returns the user row as read before `updateLastLogin`, so the
  returned `lastLoginAt` is the previous one.
- `sendFriendRequestFromQr` tests the resolved user id for truthiness. An empty id
  therefore also fails NotFound.

## Model

| member | source | states |
|---|---|---|
| `Users.FindById` | src/users/users.service.ts:8-10 | the result is a user with that id, or none exactly when no user has it; under unique ids it is that user |
| `Users.FindByEmail` | src/users/users.service.ts:12-14 | the result is a user with that email, or none exactly when no user has it; under unique emails it is that user |
| `Users.CreateUserStep` | src/users/users.service.ts:16-24 | succeeds exactly when the email is unused, appending one user with the given email, display name and avatar (none when not given); otherwise a unique-constraint error and no change; unique ids and emails are kept |
| `Users.UpdateLastLoginStep` | src/users/users.service.ts:26-31 | fails with no change when no user has the id; otherwise only that user's `lastLoginAt` becomes `now`, every other field and user is unchanged |
| `Users.CreateThenFind` | src/users/users.service.ts:12-24 | after createUser, findByEmail and findById return the created user |
| `Users.UsersService.CreateUser` | src/users/users.service.ts:16-24 | the result and the new user table are those of `CreateUserStep` on the old table |
| `Users.UsersService.UpdateLastLogin` | src/users/users.service.ts:26-31 | the result and the new user table are those of `UpdateLastLoginStep` on the old table |
| `Qr.UserIdFromToken` | src/qr/qr.service.ts:32-37 | the owner of the token when some row holds it, null exactly when none does; under unique tokens it is that row's user |
| `Qr.DeepLink` | src/qr/qr.service.ts:23-24 | the link is the configured base (default `yourapp://add-friend`), then `?token=`, then the token |
| `Qr.DeepLinkInjective` | src/qr/qr.service.ts:23-24 | under one configuration, different tokens give different deep links |
| `Qr.GetOrCreateStep` | src/qr/qr.service.ts:9-29 | an existing token of the user is returned with no change; otherwise the fresh token is stored for the user; the deep link is built from the returned token; one row per user and per token is kept |
| `Qr.GetOrCreateIdempotent` | src/qr/qr.service.ts:9-21 | a second call returns the identical token and deep link and adds no row |
| `Qr.GetOrCreateRoundTrip` | src/qr/qr.service.ts:9-37 | resolving the returned token yields the user it was requested for |
| `Qr.QrService.GetOrCreateQrToken` | src/qr/qr.service.ts:9-30 | the returned link and the new QR table are those of `GetOrCreateStep` on the old table |
| `Friends.FindFriendshipBetween` | src/friends/friends.service.ts:17-26 | the result is a row joining the two users in either direction, or none exactly when no row does; in a valid table it is the only such row |
| `Friends.SendFriendRequestStep` | src/friends/friends.service.ts:28-57 | fails for oneself, and with the status-specific message when any row joins the pair in either direction; every failure leaves the table unchanged; succeeds exactly otherwise, appending one PENDING row from sender to receiver; keeps the table invariant |
| `Friends.SendFriendRequestFromQrStep` | src/friends/friends.service.ts:59-66 | a token no QR row holds, or one whose owner id is empty, fails NotFound with no change; a token of a user is a friend request to that user |
| `Friends.AcceptFriendRequestStep` | src/friends/friends.service.ts:68-89 | NotFound for an unknown id, then BadRequest when the caller is not the addressee, then BadRequest when not PENDING, each with no change; otherwise only that row changes, to ACCEPTED with its id and direction kept |
| `Friends.RejectFriendRequestStep` | src/friends/friends.service.ts:91-113 | the same three failures in the same order, with no change; otherwise that row is deleted and the other rows stay in order |
| `Friends.BlockUserStep` | src/friends/friends.service.ts:115-143 | fails exactly for oneself, with no change; otherwise one row joins the pair, BLOCKED and directed from blocker to target; it keeps the id of the row it overwrote, or takes the new id when there was none; rows of other pairs are untouched; keeps the table invariant |
| `Friends.ListFriends` | src/friends/friends.service.ts:145-162 | a user is listed exactly when some ACCEPTED row joins them to the caller |
| `Friends.ListPendingRequests` | src/friends/friends.service.ts:164-185 | incoming holds exactly the PENDING rows addressed to the user, outgoing exactly those the user sent; in a valid table the two are disjoint |
| `Friends.RejectThenResend` | src/friends/friends.service.ts:91-113 | after a successful reject, a new request between the two users succeeds from either side |
| `Friends.AcceptThenFriends` | src/friends/friends.service.ts:68-89 | after accept, each user is in the other's friend list and a new request either way fails with "Already friends" |
| `Friends.BlockThenRequestRefused` | src/friends/friends.service.ts:115-143 | after blockUser(a, b), a request either way fails with the blocked-user message |
| `Friends.FriendsService.SendFriendRequest` | src/friends/friends.service.ts:28-57 | the result and the new friendship table are those of `SendFriendRequestStep` on the old table; the invariant is kept |
| `Friends.FriendsService.SendFriendRequestFromQr` | src/friends/friends.service.ts:59-66 | the result and the new table are those of `SendFriendRequestFromQrStep` over the QR service's table |
| `Friends.FriendsService.AcceptFriendRequest` | src/friends/friends.service.ts:68-89 | the result and the new table are those of `AcceptFriendRequestStep` on the old table |
| `Friends.FriendsService.RejectFriendRequest` | src/friends/friends.service.ts:91-113 | the result and the new table are those of `RejectFriendRequestStep` on the old table |
| `Friends.FriendsService.BlockUser` | src/friends/friends.service.ts:115-143 | the result and the new table are those of `BlockUserStep` on the old table |
| `Conversations.Dedup` | src/conversations/conversations.service.ts:67 | every input element once, no repeats, the first element first, in order of first occurrence |
| `Conversations.CreateGroupStep` | src/conversations/conversations.service.ts:62-89 | fails with no change exactly when no member other than the creator is given; otherwise appends one group conversation with the title or none, the creator first, no repeats, and exactly the creator and the members as participants |
| `Conversations.SortByCreatedDesc` | src/conversations/conversations.service.ts:103-105 | the result is ordered by `createdAt` non-increasing and is a permutation of the input |
| `Conversations.ParticipatingIn` | src/conversations/conversations.service.ts:92-97 | exactly the conversations with the user as participant, each as often as in the table |
| `Conversations.ListUserConversations` | src/conversations/conversations.service.ts:91-109 | exactly the conversations with the user as participant, each as often as in the table, ordered by `createdAt` non-increasing |
| `Conversations.GetConversationById` | src/conversations/conversations.service.ts:111-135 | under unique ids only: NotFound when no conversation has the id, else BadRequest when the user is not a participant, else that conversation; nothing is written |
| `Conversations.CreateOrGetDirectStep` | src/conversations/conversations.service.ts:12-60 | fails exactly for oneself, with no change; an existing direct conversation of the pair is returned with no change; otherwise one new direct conversation with exactly the two users is appended; the result is the pair's only direct conversation; keeps the table invariant |
| `Conversations.CreateOrGetDirectIdempotent` | src/conversations/conversations.service.ts:12-60 | a second call returns the same result and writes nothing |
| `Conversations.ConversationsService.CreateOrGetDirectConversation` | src/conversations/conversations.service.ts:12-60 | the result and the new table are those of `CreateOrGetDirectStep` on the old table |
| `Conversations.ConversationsService.CreateGroupConversation` | src/conversations/conversations.service.ts:62-89 | the result and the new table are those of `CreateGroupStep` on the old table |
| `Auth.EmailLocalPart` | src/auth/auth.service.ts:33 | the prefix of the email before its first '@', or all of it when it has none |
| `Auth.VerifyGoogleIdToken` | src/auth/auth.service.ts:19-39 | Unauthorized unless the ticket verified with a non-empty email; the profile has that email and picture, and the payload's name or else the email's local part |
| `Auth.ValidateOrCreateUserStep` | src/auth/auth.service.ts:41-57 | a user is created only when none has the email; otherwise only that user's last login changes and the row read before the update is returned; afterwards exactly one user has the email |
| `Auth.LoginTwiceSameUser` | src/auth/auth.service.ts:41-57 | a second login with the same email returns the same user id, adds no user, and leaves exactly one user with the email |
| `Auth.GenerateTokens` | src/auth/auth.service.ts:59-73 | both tokens have the user as subject; the access token is never accepted by refresh verification; the refresh token is accepted for 30 days from issue and outlives the 1-day access token |
| `Auth.SaveRefreshTokenStep` | src/auth/auth.service.ts:75-82 | stores one unrevoked record for the user when the token is new, otherwise a unique-constraint error and no change; no record is deleted or un-revoked |
| `Auth.LoginWithGoogleStep` | src/auth/auth.service.ts:84-91 | a rejected ID token is Unauthorized with nothing written; a verified one always upserts the user, and the login succeeds exactly when the refresh token minted for that user now is not stored yet, otherwise a unique-constraint error with the token table unchanged; on success the pair is the one generated for the upserted user and exactly one new unrevoked refresh record for that user is stored |
| `Auth.RefreshTokensStep` | src/auth/auth.service.ts:93-126 | every failure is the one generic Unauthorized with no change; succeeds exactly when the token verifies, its record exists unrevoked and the new token is not stored yet; then the pair is the one generated for the record's owner now, the old record is revoked and one unrevoked record for the same user is added, all other records unchanged |
| `Auth.RefreshTwiceFails` | src/auth/auth.service.ts:99-112 | after a successful rotation, presenting the same token again fails Unauthorized with no change |
| `Auth.SameSecondRotationFails` | src/auth/auth.service.ts:107-120 | a refresh token presented in the second it was issued cannot be rotated |
| `Auth.WritesExtend` | src/auth/auth.service.ts:75-120 | no sequence of saves and rotations deletes a record, changes its owner or sets `revoked` back to false |
| `Auth.RevokedStaysDead` | src/auth/auth.service.ts:99-120 | once revoked, a refresh token fails rotation after any sequence of writes |
| `Auth.AuthService.ValidateOrCreateUser` | src/auth/auth.service.ts:41-57 | the result and the new user table are those of `ValidateOrCreateUserStep`, through the users service |
| `Auth.AuthService.SaveRefreshToken` | src/auth/auth.service.ts:75-82 | the result and the new token table are those of `SaveRefreshTokenStep` on the old table |
| `Auth.AuthService.LoginWithGoogle` | src/auth/auth.service.ts:84-91 | the result and the new user and token tables are those of `LoginWithGoogleStep` on the old ones |
| `Auth.AuthService.RefreshTokens` | src/auth/auth.service.ts:93-126 | the result and the new token table are those of `RefreshTokensStep` on the old table |

## Left out

- HTTP controllers, Nest modules, DTO validation and the `{data, error}` response
  envelopes. They are routing and wiring. The JWT guard strategy (src/auth/jwt.strategy.ts)
  is not part of this model.
- JWT signing cryptography. Tokens are abstract values and the access and refresh secrets
  are taken to differ. A forged or malformed token string cannot be represented. In the
  source it fails verification, like an access token presented for refresh, and every
  refresh failure ends in the same Unauthorized.
- Google ID-token verification by the OAuth client. It is the input `Ticket`. Only its
  handling (missing payload, missing or empty email, name default) is modelled.
- `randomUUID`, store-generated ids and the clock are inputs. Each fresh value is required
  not to be in its table.
- The schema default for `lastLoginAt` is not visible. A created user has none in the
  model. A conversation's `createdAt` is the `now` passed in.
- Prisma's `include` joins. The friend list yields the friends' user ids rather than their
  user rows. Pending requests and conversations are returned without the joined user rows.
- Concurrency. Each service call is one atomic sequential step. Races between concurrent
  requests, and the store constraints that would break them, are not modelled.
- The store's foreign keys from friendships and conversation participants to users
  (the relations the `include` joins follow). User ids sent by a client are plain strings.
  For an id with no user, `friendship.create` and `conversation.create` fail with a store
  error the service does not catch. `Friends.SendFriendRequestStep`,
  `Friends.BlockUserStep`, `Conversations.CreateOrGetDirectStep` and
  `Conversations.CreateGroupStep` succeed instead, because the friends and conversations
  tables are modelled without the users table.
- The store's order of rows that `findFirst`/`findMany` return without `orderBy` is
  modelled as table (insertion) order.
- `Conversations.ListUserConversations`: the order among conversations with equal
  `createdAt` is unspecified in the source. The contract states only the ordering and the
  permutation, not which tie order is produced.
- `Friends.ListFriends`: the contract states which users are listed, not that a user
  appears once per accepted row.
- `Friends.ListPendingRequests`: the contract states which rows are in each list, not
  their order.
- `Auth.ValidateOrCreateUserStep`: the error path of `updateLastLogin` is not modelled.
  The user was found in the same table just before, so the update cannot fail.
