/** The QR capability table: one opaque token per user, created lazily, resolved back
    to its user, and shown to clients as a deep link. */
module Qr {
  import opened Common
  import opened Users

  /** A row of the QR table. */
  datatype QrToken = QrToken(userId: UserId, token: string)

  /** What getOrCreateQrToken returns to the client. */
  datatype QrLink = QrLink(token: string, deepLink: string)

  /** The store's unique constraints on the QR table: one row per user and per token. */
  ghost predicate ValidQr(rows: seq<QrToken>) {
    forall i, j :: 0 <= i < j < |rows| ==> rows[i].userId != rows[j].userId && rows[i].token != rows[j].token
  }

  /** The token the random generator hands out is not in the table yet. */
  ghost predicate FreshToken(rows: seq<QrToken>, token: string) {
    forall q :: q in rows ==> q.token != token
  }

  /** Deep-link base used when no base is configured. */
  const DefaultDeepLinkBase := "yourapp://add-friend"
  const TokenQuery := "?token="

  /** Index of the first row of `userId`, or |rows| when there is none. */
  function IndexOfUser(rows: seq<QrToken>, userId: UserId): nat {
    FirstWhere(rows, (q: QrToken) => q.userId == userId)
  }

  /** Index of the first row holding `token`, or |rows| when there is none. */
  function IndexOfToken(rows: seq<QrToken>, token: string): nat {
    FirstWhere(rows, (q: QrToken) => q.token == token)
  }

  /** getUserIdFromToken: the owner of `token`, or null when no row holds it. */
  function UserIdFromToken(rows: seq<QrToken>, token: string): (r: Option<UserId>)
    ensures r.Some? ==> QrToken(r.value, token) in rows
    ensures r.None? <==> FreshToken(rows, token)
    ensures ValidQr(rows) ==> forall q :: q in rows && q.token == token ==> r == Some(q.userId)
  {
    var k := IndexOfToken(rows, token);
    if k < |rows| then Some(rows[k].userId) else None
  }

  /** The deep link for `token`: the configured base (or the default one when none is
      configured), then the query parameter carrying the token. */
  function DeepLink(configuredBase: Option<string>, token: string): (link: string)
    ensures var base := if configuredBase.Some? then configuredBase.value else DefaultDeepLinkBase;
      && |link| == |base| + |TokenQuery| + |token|
      && link[..|base|] == base
      && link[|base|..|base| + |TokenQuery|] == TokenQuery
      && link[|base| + |TokenQuery|..] == token
  {
    var base := match configuredBase
      case Some(b) => b
      case None => DefaultDeepLinkBase;
    base + TokenQuery + token
  }

  /** Under one configuration, distinct tokens give distinct deep links. */
  lemma DeepLinkInjective(configuredBase: Option<string>, t1: string, t2: string)
    requires DeepLink(configuredBase, t1) == DeepLink(configuredBase, t2)
    ensures t1 == t2
  {
  }

  /** getOrCreateQrToken: the user's existing token, or else the fresh token, which is
      stored for the user. An existing row is never modified. */
  function GetOrCreateStep(rows: seq<QrToken>, configuredBase: Option<string>,
                           userId: UserId, freshToken: string): (r: (QrLink, seq<QrToken>))
    requires FreshToken(rows, freshToken)
    ensures r.0.deepLink == DeepLink(configuredBase, r.0.token)
    ensures forall q :: q in rows && q.userId == userId && ValidQr(rows) ==>
      r.0.token == q.token && r.1 == rows
    ensures (forall q :: q in rows ==> q.userId != userId) ==>
      r.0.token == freshToken && r.1 == rows + [QrToken(userId, freshToken)]
    ensures QrToken(userId, r.0.token) in r.1
    ensures ValidQr(rows) ==> ValidQr(r.1)
  {
    var k := IndexOfUser(rows, userId);
    var qr := if k < |rows| then rows[k] else QrToken(userId, freshToken);
    var rows' := if k < |rows| then rows else rows + [qr];
    (QrLink(qr.token, DeepLink(configuredBase, qr.token)), rows')
  }

  /** A second getOrCreateQrToken returns the identical token and adds no row. */
  lemma GetOrCreateIdempotent(rows: seq<QrToken>, configuredBase: Option<string>,
                              userId: UserId, fresh1: string, fresh2: string)
    requires ValidQr(rows) && FreshToken(rows, fresh1)
    requires FreshToken(GetOrCreateStep(rows, configuredBase, userId, fresh1).1, fresh2)
    ensures var first := GetOrCreateStep(rows, configuredBase, userId, fresh1);
      var second := GetOrCreateStep(first.1, configuredBase, userId, fresh2);
      second.0 == first.0 && second.1 == first.1
  {
  }

  /** Resolving the token getOrCreateQrToken returns yields the user it was made for. */
  lemma GetOrCreateRoundTrip(rows: seq<QrToken>, configuredBase: Option<string>,
                                                userId: UserId, freshToken: string)
    requires ValidQr(rows) && FreshToken(rows, freshToken)
    ensures var r := GetOrCreateStep(rows, configuredBase, userId, freshToken);
      UserIdFromToken(r.1, r.0.token) == Some(userId)
  {
  }

  /** The QR service: the QR table and the configured deep-link base. */
  class QrService {
    var rows: seq<QrToken>
    const configuredBase: Option<string>

    ghost predicate Valid()
      reads this
    {
      ValidQr(rows)
    }

    constructor (initial: seq<QrToken>, base: Option<string>)
      requires ValidQr(initial)
      ensures Valid() && rows == initial && configuredBase == base
    {
      rows := initial;
      configuredBase := base;
    }

    method GetOrCreateQrToken(userId: UserId, freshToken: string) returns (link: QrLink)
      requires Valid() && FreshToken(rows, freshToken)
      modifies this
      ensures Valid()
      ensures (link, rows) == GetOrCreateStep(old(rows), configuredBase, userId, freshToken)
    {
      var k := IndexOfUser(rows, userId);
      var qr: QrToken;
      if k < |rows| {
        qr := rows[k];
      } else {
        qr := QrToken(userId, freshToken);
        rows := rows + [qr];
      }
      link := QrLink(qr.token, DeepLink(configuredBase, qr.token));
    }
  }
}
