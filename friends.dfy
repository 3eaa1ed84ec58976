/** The friendship table and the friends service's state machine over it: one row per
    pair of users, with a direction (requester to addressee) and a status. */
module Friends {
  import opened Common
  import opened Users
  import Qr

  type FriendshipId = string

  datatype FriendshipStatus = Pending | Accepted | Blocked

  /** A row of the friendship table. */
  datatype Friendship = Friendship(
    id: FriendshipId,
    requesterId: UserId,
    addresseeId: UserId,
    status: FriendshipStatus)

  /** What listPendingRequests returns. */
  datatype PendingRequests = PendingRequests(incoming: seq<Friendship>, outgoing: seq<Friendship>)

  const SelfRequestMessage := "Cannot send friend request to yourself"
  const AlreadyFriendsMessage := "Already friends"
  const BlockedMessage := "Cannot send request to blocked user"
  const AlreadyPendingMessage := "Friend request already pending"
  const InvalidQrMessage := "Invalid QR token"
  const FriendshipNotFoundMessage := "Friendship not found"
  const NotReceiverMessage := "You are not the receiver of this request"
  const NotPendingMessage := "Friend request is not pending"
  const SelfBlockMessage := "Cannot block yourself"

  /** The failure sendFriendRequest reports for an existing row with this status. */
  function ExistingMessage(status: FriendshipStatus): string {
    match status
    case Accepted => AlreadyFriendsMessage
    case Blocked => BlockedMessage
    case Pending => AlreadyPendingMessage
  }

  /** Row `f` joins `a` and `b`, in either direction. */
  predicate Links(f: Friendship, a: UserId, b: UserId) {
    (f.requesterId == a && f.addresseeId == b) || (f.requesterId == b && f.addresseeId == a)
  }

  /** The table invariant the service keeps: row ids are unique, no row joins a user to
      themself, and at most one row joins any unordered pair of users. */
  ghost predicate ValidFriendships(rows: seq<Friendship>) {
    && (forall i, j :: 0 <= i < j < |rows| ==> rows[i].id != rows[j].id)
    && (forall i :: 0 <= i < |rows| ==> rows[i].requesterId != rows[i].addresseeId)
    && (forall i, j :: 0 <= i < j < |rows| ==> !Links(rows[j], rows[i].requesterId, rows[i].addresseeId))
  }

  /** The id the store assigns to a new row is not used yet. */
  ghost predicate FreshFriendshipId(rows: seq<Friendship>, id: FriendshipId) {
    forall f :: f in rows ==> f.id != id
  }

  /** Index of the first row joining `a` and `b`, or |rows| when there is none. */
  function IndexBetween(rows: seq<Friendship>, a: UserId, b: UserId): nat {
    FirstWhere(rows, (f: Friendship) => Links(f, a, b))
  }

  /** Index of the row with id `id`, or |rows| when there is none. */
  function IndexOfFriendship(rows: seq<Friendship>, id: FriendshipId): nat {
    FirstWhere(rows, (f: Friendship) => f.id == id)
  }

  /** findFriendshipBetween: some row joining the two users in either direction, or none. */
  function FindFriendshipBetween(rows: seq<Friendship>, a: UserId, b: UserId): (r: Option<Friendship>)
    ensures r.Some? ==> r.value in rows && Links(r.value, a, b)
    ensures r.None? <==> forall f :: f in rows ==> !Links(f, a, b)
    ensures ValidFriendships(rows) ==> forall f :: f in rows && Links(f, a, b) ==> r == Some(f)
  {
    var k := IndexBetween(rows, a, b);
    if k < |rows| then Some(rows[k]) else None
  }

  /** In a valid table, a row that joins the endpoints of row `i` is row `i`. */
  lemma OnlyLink(rows: seq<Friendship>, i: nat, j: nat)
    requires ValidFriendships(rows) && i < |rows| && j < |rows|
    requires Links(rows[j], rows[i].requesterId, rows[i].addresseeId)
    ensures i == j
  {
  }

  /** sendFriendRequest: refused for oneself and whenever any row already joins the pair
      (whatever its direction or status); otherwise one PENDING row from `from` to `to`
      is added and nothing else changes. */
  function SendFriendRequestStep(rows: seq<Friendship>, from: UserId, to: UserId,
                                 newId: FriendshipId): (r: Outcome<Friendship, seq<Friendship>>)
    requires ValidFriendships(rows) && FreshFriendshipId(rows, newId)
    ensures r.result.Err? ==> r.table == rows
    ensures from == to ==> r.result == Err(BadRequest(SelfRequestMessage))
    ensures from != to ==> forall f :: f in rows && Links(f, from, to) ==>
      r.result == Err(BadRequest(ExistingMessage(f.status)))
    ensures r.result.Ok? <==> from != to && forall f :: f in rows ==> !Links(f, from, to)
    ensures r.result.Ok? ==>
      && r.result.value == Friendship(newId, from, to, Pending)
      && r.table == rows + [r.result.value]
    ensures ValidFriendships(r.table)
  {
    if from == to then
      Outcome(Err(BadRequest(SelfRequestMessage)), rows)
    else
      match FindFriendshipBetween(rows, from, to)
      case Some(existing) =>
        Outcome(Err(BadRequest(ExistingMessage(existing.status))), rows)
      case None =>
        var friendship := Friendship(newId, from, to, Pending);
        Outcome(Ok(friendship), rows + [friendship])
  }

  /** sendFriendRequestFromQr: a token no QR row holds fails NotFound; otherwise it is
      sendFriendRequest to the token's owner. */
  function SendFriendRequestFromQrStep(rows: seq<Friendship>, qrRows: seq<Qr.QrToken>, from: UserId,
                                       token: string, newId: FriendshipId): (r: Outcome<Friendship, seq<Friendship>>)
    requires ValidFriendships(rows) && FreshFriendshipId(rows, newId)
    ensures Qr.FreshToken(qrRows, token) ==> r == Outcome(Err(NotFound(InvalidQrMessage)), rows)
    ensures forall q :: q in qrRows && q.token == token && q.userId != "" && Qr.ValidQr(qrRows) ==>
      r == SendFriendRequestStep(rows, from, q.userId, newId)
    ensures forall q :: q in qrRows && q.token == token && q.userId == "" && Qr.ValidQr(qrRows) ==>
      r == Outcome(Err(NotFound(InvalidQrMessage)), rows)
    ensures ValidFriendships(r.table)
  {
    match Qr.UserIdFromToken(qrRows, token)
    case None => Outcome(Err(NotFound(InvalidQrMessage)), rows)
    case Some(target) =>
      // The source tests the owner id for truthiness, which also rejects an empty id.
      if target == "" then Outcome(Err(NotFound(InvalidQrMessage)), rows)
      else SendFriendRequestStep(rows, from, target, newId)
  }

  /** acceptFriendRequest: fails NotFound for an unknown id, then BadRequest when the caller
      is not the addressee, then BadRequest when the row is not PENDING; otherwise only
      that row changes, to ACCEPTED, keeping its id and direction. */
  function AcceptFriendRequestStep(rows: seq<Friendship>, currentUserId: UserId,
                                   friendshipId: FriendshipId): (r: Outcome<Friendship, seq<Friendship>>)
    requires ValidFriendships(rows)
    ensures r.result.Err? ==> r.table == rows
    ensures (forall f :: f in rows ==> f.id != friendshipId) ==>
      r.result == Err(NotFound(FriendshipNotFoundMessage))
    ensures forall f :: f in rows && f.id == friendshipId ==>
      if f.addresseeId != currentUserId then r.result == Err(BadRequest(NotReceiverMessage))
      else if f.status != Pending then r.result == Err(BadRequest(NotPendingMessage))
      else r.result == Ok(f.(status := Accepted))
    ensures r.result.Ok? ==>
      exists k :: 0 <= k < |rows| && rows[k].id == friendshipId && r.table == rows[k := r.result.value]
    ensures ValidFriendships(r.table)
  {
    var k := IndexOfFriendship(rows, friendshipId);
    if k == |rows| then Outcome(Err(NotFound(FriendshipNotFoundMessage)), rows)
    else if rows[k].addresseeId != currentUserId then Outcome(Err(BadRequest(NotReceiverMessage)), rows)
    else if rows[k].status != Pending then Outcome(Err(BadRequest(NotPendingMessage)), rows)
    else
      var accepted := rows[k].(status := Accepted);
      Outcome(Ok(accepted), rows[k := accepted])
  }

  /** rejectFriendRequest: the same three checks as acceptFriendRequest; on success the
      row is deleted and every other row stays, in order. */
  function RejectFriendRequestStep(rows: seq<Friendship>, currentUserId: UserId,
                                   friendshipId: FriendshipId): (r: Outcome<(), seq<Friendship>>)
    requires ValidFriendships(rows)
    ensures r.result.Err? ==> r.table == rows
    ensures (forall f :: f in rows ==> f.id != friendshipId) ==>
      r.result == Err(NotFound(FriendshipNotFoundMessage))
    ensures forall f :: f in rows && f.id == friendshipId ==>
      if f.addresseeId != currentUserId then r.result == Err(BadRequest(NotReceiverMessage))
      else if f.status != Pending then r.result == Err(BadRequest(NotPendingMessage))
      else r.result.Ok?
    ensures r.result.Ok? ==>
      exists k :: 0 <= k < |rows| && rows[k].id == friendshipId && r.table == RemoveAt(rows, k)
    ensures ValidFriendships(r.table)
  {
    var k := IndexOfFriendship(rows, friendshipId);
    if k == |rows| then Outcome(Err(NotFound(FriendshipNotFoundMessage)), rows)
    else if rows[k].addresseeId != currentUserId then Outcome(Err(BadRequest(NotReceiverMessage)), rows)
    else if rows[k].status != Pending then Outcome(Err(BadRequest(NotPendingMessage)), rows)
    else Outcome(Ok(()), RemoveAt(rows, k))
  }

  /** blockUser: refused for oneself; otherwise it always succeeds, and afterwards exactly
      one row joins the pair: BLOCKED, directed from the blocker to the target, keeping
      the id of the row it overwrote. Rows of other pairs are untouched. */
  function BlockUserStep(rows: seq<Friendship>, currentUserId: UserId, targetUserId: UserId,
                         newId: FriendshipId): (r: Outcome<Friendship, seq<Friendship>>)
    requires ValidFriendships(rows) && FreshFriendshipId(rows, newId)
    ensures r.result.Err? <==> currentUserId == targetUserId
    ensures r.result.Err? ==> r == Outcome(Err(BadRequest(SelfBlockMessage)), rows)
    ensures r.result.Ok? ==>
      && r.result.value.requesterId == currentUserId
      && r.result.value.addresseeId == targetUserId
      && r.result.value.status == Blocked
      && r.result.value in r.table
      && (forall f :: f in r.table && Links(f, currentUserId, targetUserId) ==> f == r.result.value)
      && (forall f :: f in rows && Links(f, currentUserId, targetUserId) ==> r.result.value.id == f.id)
      && ((forall f :: f in rows ==> !Links(f, currentUserId, targetUserId)) ==> r.result.value.id == newId)
      && (forall f :: f in rows && !Links(f, currentUserId, targetUserId) ==> f in r.table)
      && (forall f :: f in r.table && !Links(f, currentUserId, targetUserId) ==> f in rows)
    ensures ValidFriendships(r.table)
  {
    if currentUserId == targetUserId then
      Outcome(Err(BadRequest(SelfBlockMessage)), rows)
    else
      var k := IndexBetween(rows, currentUserId, targetUserId);
      if k < |rows| then
        var blocked := Friendship(rows[k].id, currentUserId, targetUserId, Blocked);
        BlockOverwrite(rows, k, blocked);
        Outcome(Ok(blocked), rows[k := blocked])
      else
        var blocked := Friendship(newId, currentUserId, targetUserId, Blocked);
        Outcome(Ok(blocked), rows + [blocked])
  }

  /** Overwriting the one row of a pair with another row of that pair and id keeps the
      table valid and leaves the pair with that row only. */
  lemma BlockOverwrite(rows: seq<Friendship>, k: nat, blocked: Friendship)
    requires ValidFriendships(rows) && k < |rows|
    requires blocked.id == rows[k].id && blocked.requesterId != blocked.addresseeId
    requires Links(rows[k], blocked.requesterId, blocked.addresseeId)
    ensures ValidFriendships(rows[k := blocked])
    ensures blocked in rows[k := blocked]
    ensures forall f :: f in rows[k := blocked] && Links(f, blocked.requesterId, blocked.addresseeId) ==> f == blocked
    ensures forall f :: f in rows && !Links(f, blocked.requesterId, blocked.addresseeId) ==> f in rows[k := blocked]
    ensures forall f :: f in rows && Links(f, blocked.requesterId, blocked.addresseeId) ==> f == rows[k]
  {
    var rows' := rows[k := blocked];
    assert rows'[k] == blocked;
    forall i | 0 <= i < |rows| && Links(rows[i], blocked.requesterId, blocked.addresseeId)
      ensures i == k
    {
      OnlyLink(rows, k, i);
    }
    forall f | f in rows && !Links(f, blocked.requesterId, blocked.addresseeId)
      ensures f in rows'
    {
      var i :| 0 <= i < |rows| && rows[i] == f;
      assert rows'[i] == f;
    }
  }

  /** The other endpoint of row `f`, seen from `u`. */
  function OtherEnd(f: Friendship, u: UserId): UserId {
    if f.requesterId == u then f.addresseeId else f.requesterId
  }

  /** Row `f` is an accepted friendship that involves `u`. */
  predicate IsFriendshipOf(f: Friendship, u: UserId) {
    f.status == Accepted && (f.requesterId == u || f.addresseeId == u)
  }

  /** listFriends: the other endpoint of every ACCEPTED row that involves `u`, one entry
      per such row, in table order. */
  function ListFriends(rows: seq<Friendship>, u: UserId): (friends: seq<UserId>)
    ensures |friends| <= |rows|
    ensures forall v :: v in friends <==> exists f :: f in rows && IsFriendshipOf(f, u) && OtherEnd(f, u) == v
    decreases |rows|
  {
    if |rows| == 0 then []
    else
      var rest := ListFriends(rows[1..], u);
      assert forall f :: f in rows <==> f == rows[0] || f in rows[1..];
      if IsFriendshipOf(rows[0], u) then [OtherEnd(rows[0], u)] + rest else rest
  }

  /** PENDING rows addressed to `u`, in table order. */
  function Incoming(rows: seq<Friendship>, u: UserId): (r: seq<Friendship>)
    ensures |r| <= |rows|
    ensures forall f :: f in r <==> f in rows && f.status == Pending && f.addresseeId == u
    decreases |rows|
  {
    if |rows| == 0 then []
    else
      var rest := Incoming(rows[1..], u);
      assert forall f :: f in rows <==> f == rows[0] || f in rows[1..];
      if rows[0].status == Pending && rows[0].addresseeId == u then [rows[0]] + rest else rest
  }

  /** PENDING rows requested by `u`, in table order. */
  function Outgoing(rows: seq<Friendship>, u: UserId): (r: seq<Friendship>)
    ensures |r| <= |rows|
    ensures forall f :: f in r <==> f in rows && f.status == Pending && f.requesterId == u
    decreases |rows|
  {
    if |rows| == 0 then []
    else
      var rest := Outgoing(rows[1..], u);
      assert forall f :: f in rows <==> f == rows[0] || f in rows[1..];
      if rows[0].status == Pending && rows[0].requesterId == u then [rows[0]] + rest else rest
  }

  /** listPendingRequests: the requests `u` has received and the ones `u` has sent that
      are still PENDING. */
  function ListPendingRequests(rows: seq<Friendship>, u: UserId): (r: PendingRequests)
    ensures forall f :: f in r.incoming <==> f in rows && f.status == Pending && f.addresseeId == u
    ensures forall f :: f in r.outgoing <==> f in rows && f.status == Pending && f.requesterId == u
    ensures ValidFriendships(rows) ==> forall f :: f in r.incoming ==> f !in r.outgoing
  {
    PendingRequests(Incoming(rows, u), Outgoing(rows, u))
  }


  /** Once a request is rejected, the pair has no row left, so a new request between them
      succeeds, whichever side sends it. */
  lemma RejectThenResend(rows: seq<Friendship>, currentUserId: UserId, friendshipId: FriendshipId,
                         newId: FriendshipId)
    requires ValidFriendships(rows)
    requires RejectFriendRequestStep(rows, currentUserId, friendshipId).result.Ok?
    requires FreshFriendshipId(RejectFriendRequestStep(rows, currentUserId, friendshipId).table, newId)
    ensures forall f :: f in rows && f.id == friendshipId ==>
      var after := RejectFriendRequestStep(rows, currentUserId, friendshipId).table;
      && SendFriendRequestStep(after, f.requesterId, f.addresseeId, newId).result.Ok?
      && SendFriendRequestStep(after, f.addresseeId, f.requesterId, newId).result.Ok?
  {
  }

  /** Accepting a request makes the two users friends of each other, and a new request
      between them, from either side, fails with "Already friends". */
  lemma AcceptThenFriends(rows: seq<Friendship>, friendshipId: FriendshipId, currentUserId: UserId,
                          newId: FriendshipId)
    requires ValidFriendships(rows)
    requires AcceptFriendRequestStep(rows, currentUserId, friendshipId).result.Ok?
    requires FreshFriendshipId(AcceptFriendRequestStep(rows, currentUserId, friendshipId).table, newId)
    ensures var r := AcceptFriendRequestStep(rows, currentUserId, friendshipId);
      var a, b := r.result.value.requesterId, r.result.value.addresseeId;
      && b == currentUserId
      && b in ListFriends(r.table, a) && a in ListFriends(r.table, b)
      && SendFriendRequestStep(r.table, a, b, newId).result == Err(BadRequest(AlreadyFriendsMessage))
      && SendFriendRequestStep(r.table, b, a, newId).result == Err(BadRequest(AlreadyFriendsMessage))
  {
    var r := AcceptFriendRequestStep(rows, currentUserId, friendshipId);
    var k :| 0 <= k < |rows| && rows[k].id == friendshipId && r.table == rows[k := r.result.value];
    assert r.table[k] == r.result.value;
    assert IsFriendshipOf(r.result.value, r.result.value.requesterId);
    assert IsFriendshipOf(r.result.value, r.result.value.addresseeId);
  }

  /** After blockUser(a, b), a request between the two fails with the blocked message,
      from either side. */
  lemma BlockThenRequestRefused(rows: seq<Friendship>, a: UserId, b: UserId, newId: FriendshipId,
                                laterId: FriendshipId)
    requires ValidFriendships(rows) && FreshFriendshipId(rows, newId) && a != b
    requires FreshFriendshipId(BlockUserStep(rows, a, b, newId).table, laterId)
    ensures var after := BlockUserStep(rows, a, b, newId).table;
      && SendFriendRequestStep(after, b, a, laterId).result == Err(BadRequest(BlockedMessage))
      && SendFriendRequestStep(after, a, b, laterId).result == Err(BadRequest(BlockedMessage))
  {
  }

  /** The friends service: the friendship table, and the QR service it resolves tokens with. */
  class FriendsService {
    var rows: seq<Friendship>
    const qrService: Qr.QrService

    ghost predicate Valid()
      reads this
    {
      ValidFriendships(rows)
    }

    constructor (initial: seq<Friendship>, qr: Qr.QrService)
      requires ValidFriendships(initial)
      ensures Valid() && rows == initial && qrService == qr
    {
      rows := initial;
      qrService := qr;
    }

    method SendFriendRequest(fromUserId: UserId, toUserId: UserId, newId: FriendshipId)
      returns (r: Result<Friendship>)
      requires Valid() && FreshFriendshipId(rows, newId)
      modifies this
      ensures Valid()
      ensures Outcome(r, rows) == SendFriendRequestStep(old(rows), fromUserId, toUserId, newId)
    {
      if fromUserId == toUserId {
        return Err(BadRequest(SelfRequestMessage));
      }
      var existing := FindFriendshipBetween(rows, fromUserId, toUserId);
      if existing.Some? {
        return Err(BadRequest(ExistingMessage(existing.value.status)));
      }
      var friendship := Friendship(newId, fromUserId, toUserId, Pending);
      rows := rows + [friendship];
      r := Ok(friendship);
    }

    method SendFriendRequestFromQr(fromUserId: UserId, token: string, newId: FriendshipId)
      returns (r: Result<Friendship>)
      requires Valid() && FreshFriendshipId(rows, newId)
      modifies this
      ensures Valid()
      ensures Outcome(r, rows) == SendFriendRequestFromQrStep(old(rows), qrService.rows, fromUserId, token, newId)
    {
      var targetUserId := Qr.UserIdFromToken(qrService.rows, token);
      if targetUserId.None? || targetUserId.value == "" {
        return Err(NotFound(InvalidQrMessage));
      }
      r := SendFriendRequest(fromUserId, targetUserId.value, newId);
    }

    method AcceptFriendRequest(currentUserId: UserId, friendshipId: FriendshipId)
      returns (r: Result<Friendship>)
      requires Valid()
      modifies this
      ensures Valid()
      ensures Outcome(r, rows) == AcceptFriendRequestStep(old(rows), currentUserId, friendshipId)
    {
      var k := IndexOfFriendship(rows, friendshipId);
      if k == |rows| {
        return Err(NotFound(FriendshipNotFoundMessage));
      }
      var friendship := rows[k];
      if friendship.addresseeId != currentUserId {
        return Err(BadRequest(NotReceiverMessage));
      }
      if friendship.status != Pending {
        return Err(BadRequest(NotPendingMessage));
      }
      var accepted := friendship.(status := Accepted);
      rows := rows[k := accepted];
      r := Ok(accepted);
    }

    method RejectFriendRequest(currentUserId: UserId, friendshipId: FriendshipId)
      returns (r: Result<()>)
      requires Valid()
      modifies this
      ensures Valid()
      ensures Outcome(r, rows) == RejectFriendRequestStep(old(rows), currentUserId, friendshipId)
    {
      var k := IndexOfFriendship(rows, friendshipId);
      if k == |rows| {
        return Err(NotFound(FriendshipNotFoundMessage));
      }
      var friendship := rows[k];
      if friendship.addresseeId != currentUserId {
        return Err(BadRequest(NotReceiverMessage));
      }
      if friendship.status != Pending {
        return Err(BadRequest(NotPendingMessage));
      }
      rows := RemoveAt(rows, k);
      r := Ok(());
    }

    method BlockUser(currentUserId: UserId, targetUserId: UserId, newId: FriendshipId)
      returns (r: Result<Friendship>)
      requires Valid() && FreshFriendshipId(rows, newId)
      modifies this
      ensures Valid()
      ensures Outcome(r, rows) == BlockUserStep(old(rows), currentUserId, targetUserId, newId)
    {
      if currentUserId == targetUserId {
        return Err(BadRequest(SelfBlockMessage));
      }
      var k := IndexBetween(rows, currentUserId, targetUserId);
      var blocked: Friendship;
      if k < |rows| {
        blocked := Friendship(rows[k].id, currentUserId, targetUserId, Blocked);
        rows := rows[k := blocked];
      } else {
        blocked := Friendship(newId, currentUserId, targetUserId, Blocked);
        rows := rows + [blocked];
      }
      r := Ok(blocked);
    }
  }
}
