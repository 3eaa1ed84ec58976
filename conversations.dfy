/** The conversation table (each conversation with its participants) and the
    conversations service: create-or-get of a direct conversation, group creation,
    and the two membership-checked reads. */
module Conversations {
  import opened Common
  import opened Users

  type ConversationId = string

  /** A conversation row together with its participant rows, in creation order. */
  datatype Conversation = Conversation(
    id: ConversationId,
    isGroup: bool,
    title: Option<string>,
    createdAt: nat,
    participants: seq<UserId>)

  const SelfDirectMessage := "Cannot create direct conversation with yourself"
  const GroupTooSmallMessage := "Group must have at least 2 members"
  const ConversationNotFoundMessage := "Conversation not found"
  const NotParticipantMessage := "You are not a participant of this conversation"

  predicate NoDuplicates(xs: seq<UserId>) {
    forall i, j :: 0 <= i < j < |xs| ==> xs[i] != xs[j]
  }

  /** The lookup of createOrGetDirectConversation: a non-group conversation that has both
      users among its participants. */
  predicate DirectBetween(c: Conversation, a: UserId, b: UserId) {
    !c.isGroup && a in c.participants && b in c.participants
  }

  /** No two conversations share an id (the primary key). */
  ghost predicate UniqueConversationIds(rows: seq<Conversation>) {
    forall i, j :: 0 <= i < j < |rows| ==> rows[i].id != rows[j].id
  }

  /** The table invariant the service keeps: ids are unique; a direct conversation has
      exactly two distinct participants; a group has at least two, without repeats; and
      no two direct conversations join the same pair of users. */
  ghost predicate ValidConversations(rows: seq<Conversation>) {
    && UniqueConversationIds(rows)
    && (forall i :: 0 <= i < |rows| && !rows[i].isGroup ==>
          |rows[i].participants| == 2 && rows[i].participants[0] != rows[i].participants[1])
    && (forall i :: 0 <= i < |rows| && rows[i].isGroup ==>
          |rows[i].participants| >= 2 && NoDuplicates(rows[i].participants))
    && (forall i, j, a, b :: 0 <= i < j < |rows| && a != b && DirectBetween(rows[i], a, b) ==>
          !DirectBetween(rows[j], a, b))
  }

  /** The id the store assigns to a new conversation is not used yet. */
  ghost predicate FreshConversationId(rows: seq<Conversation>, id: ConversationId) {
    forall c :: c in rows ==> c.id != id
  }

  /** Index of the first occurrence of `x` in `xs`, or |xs| when it does not occur. */
  function FirstIndex(xs: seq<UserId>, x: UserId): (k: nat)
    ensures k <= |xs|
    ensures forall j :: 0 <= j < k ==> xs[j] != x
    ensures k < |xs| <==> x in xs
    ensures k < |xs| ==> xs[k] == x
    decreases |xs|
  {
    if |xs| == 0 then 0
    else if xs[0] == x then 0
    else 1 + FirstIndex(xs[1..], x)
  }

  /** Appending an element does not move the first occurrence of one already present. */
  lemma FirstIndexAppend(xs: seq<UserId>, x: UserId, y: UserId)
    requires y in xs
    ensures FirstIndex(xs + [x], y) == FirstIndex(xs, y)
  {
    var k := FirstIndex(xs, y);
    assert (xs + [x])[k] == y;
    var k' := FirstIndex(xs + [x], y);
    assert xs[k'] == (xs + [x])[k'];
  }

  /** `Array.from(new Set(xs))`: each element of `xs` once, in order of first occurrence. */
  function Dedup(xs: seq<UserId>): (r: seq<UserId>)
    ensures forall x :: x in r <==> x in xs
    ensures NoDuplicates(r)
    ensures |r| <= |xs|
    ensures |xs| > 0 ==> |r| > 0 && r[0] == xs[0]
    ensures forall i, j :: 0 <= i < j < |r| ==> FirstIndex(xs, r[i]) < FirstIndex(xs, r[j])
    decreases |xs|
  {
    if |xs| == 0 then []
    else
      var init := xs[..|xs| - 1];
      var x := xs[|xs| - 1];
      assert xs == init + [x];
      var d := Dedup(init);
      forall y | y in init
        ensures FirstIndex(xs, y) == FirstIndex(init, y)
      {
        FirstIndexAppend(init, x, y);
      }
      if x in d then d
      else
        assert FirstIndex(xs, x) == |init|;
        d + [x]
  }

  /** With no repeats and `x` in front, any member other than `x` makes at least two. */
  lemma DedupSize(xs: seq<UserId>, x: UserId)
    requires NoDuplicates(xs) && |xs| > 0 && xs[0] == x
    ensures |xs| >= 2 <==> exists y :: y in xs && y != x
  {
    if |xs| >= 2 {
      assert xs[1] in xs && xs[1] != x;
    }
  }

  predicate SortedByCreatedDesc(cs: seq<Conversation>) {
    forall i, j :: 0 <= i < j < |cs| ==> cs[i].createdAt >= cs[j].createdAt
  }

  /** Insert `c` into a list sorted newest first, before the first older entry. */
  function InsertByCreatedDesc(c: Conversation, cs: seq<Conversation>): (r: seq<Conversation>)
    requires SortedByCreatedDesc(cs)
    ensures |r| == |cs| + 1
    ensures forall x :: x in r <==> x == c || x in cs
    ensures SortedByCreatedDesc(r)
    ensures multiset(r) == multiset(cs) + multiset{c}
    decreases |cs|
  {
    if |cs| == 0 || c.createdAt >= cs[0].createdAt then
      assert forall x :: x in cs ==> cs[0].createdAt >= x.createdAt by {
        forall x | x in cs ensures cs[0].createdAt >= x.createdAt {
          var j :| 0 <= j < |cs| && cs[j] == x;
          if j > 0 { assert cs[0].createdAt >= cs[j].createdAt; }
        }
      }
      [c] + cs
    else
      var tail := cs[1..];
      var rest := InsertByCreatedDesc(c, tail);
      assert cs == [cs[0]] + tail;
      var r := [cs[0]] + rest;
      forall i, j | 0 <= i < j < |r|
        ensures r[i].createdAt >= r[j].createdAt
      {
        if i == 0 {
          assert r[j] in rest;
          if r[j] != c {
            var m :| 0 <= m < |tail| && tail[m] == r[j];
            assert cs[m + 1] == r[j];
          }
        } else {
          assert r[i] == rest[i - 1] && r[j] == rest[j - 1];
        }
      }
      r
  }

  /** Sort newest first, keeping the entries (a permutation of `cs`). */
  function SortByCreatedDesc(cs: seq<Conversation>): (r: seq<Conversation>)
    ensures SortedByCreatedDesc(r)
    ensures multiset(r) == multiset(cs)
    decreases |cs|
  {
    if |cs| == 0 then []
    else
      assert cs == [cs[0]] + cs[1..];
      InsertByCreatedDesc(cs[0], SortByCreatedDesc(cs[1..]))
  }

  /** The conversations `u` participates in, in table order. */
  function ParticipatingIn(rows: seq<Conversation>, u: UserId): (r: seq<Conversation>)
    ensures forall c :: c in r <==> c in rows && u in c.participants
    ensures forall c :: multiset(r)[c] == if u in c.participants then multiset(rows)[c] else 0
    decreases |rows|
  {
    if |rows| == 0 then []
    else
      var rest := ParticipatingIn(rows[1..], u);
      assert forall c :: c in rows <==> c == rows[0] || c in rows[1..];
      assert rows == [rows[0]] + rows[1..];
      if u in rows[0].participants then [rows[0]] + rest else rest
  }

  /** listUserConversations: exactly the conversations `u` participates in, each as often
      as in the table, newest first. */
  function ListUserConversations(rows: seq<Conversation>, u: UserId): (r: seq<Conversation>)
    ensures forall c :: c in r <==> c in rows && u in c.participants
    ensures multiset(r) == multiset(ParticipatingIn(rows, u))
    ensures SortedByCreatedDesc(r)
  {
    var mine := ParticipatingIn(rows, u);
    var sorted := SortByCreatedDesc(mine);
    assert forall c :: c in sorted <==> c in multiset(mine);
    sorted
  }

  /** Index of the conversation with id `id`, or |rows| when there is none. */
  function IndexOfConversation(rows: seq<Conversation>, id: ConversationId): nat {
    FirstWhere(rows, (c: Conversation) => c.id == id)
  }

  /** getConversationById: NotFound when no conversation has the id, then BadRequest when
      `u` is not a participant; otherwise that conversation. Nothing is written. */
  function GetConversationById(rows: seq<Conversation>, u: UserId, id: ConversationId): (r: Result<Conversation>)
    requires UniqueConversationIds(rows)
    ensures (forall c :: c in rows ==> c.id != id) ==> r == Err(NotFound(ConversationNotFoundMessage))
    ensures forall c :: c in rows && c.id == id ==>
      r == if u in c.participants then Ok(c) else Err(BadRequest(NotParticipantMessage))
  {
    var k := IndexOfConversation(rows, id);
    if k == |rows| then Err(NotFound(ConversationNotFoundMessage))
    else if u !in rows[k].participants then Err(BadRequest(NotParticipantMessage))
    else Ok(rows[k])
  }

  /** In a valid table, two direct conversations between the same two users are one. */
  lemma OnlyDirect(rows: seq<Conversation>, i: nat, j: nat, a: UserId, b: UserId)
    requires ValidConversations(rows) && i < |rows| && j < |rows| && a != b
    requires DirectBetween(rows[i], a, b) && DirectBetween(rows[j], a, b)
    ensures i == j
  {
  }

  /** createOrGetDirectConversation: refused for oneself; a direct conversation that
      already joins the two users is returned and nothing is written; otherwise one new
      direct conversation with exactly the two users is added. Either way the result is
      the only direct conversation of the pair. */
  function CreateOrGetDirectStep(rows: seq<Conversation>, currentUserId: UserId, targetUserId: UserId,
                                 newId: ConversationId, now: nat): (r: Outcome<Conversation, seq<Conversation>>)
    requires ValidConversations(rows) && FreshConversationId(rows, newId)
    ensures currentUserId == targetUserId <==> r.result.Err?
    ensures r.result.Err? ==> r == Outcome(Err(BadRequest(SelfDirectMessage)), rows)
    ensures r.result.Ok? ==>
      && !r.result.value.isGroup
      && r.result.value.participants in {[currentUserId, targetUserId], [targetUserId, currentUserId]}
      && r.result.value in r.table
      && forall c :: c in r.table && DirectBetween(c, currentUserId, targetUserId) ==> c == r.result.value
    ensures forall c :: c in rows && DirectBetween(c, currentUserId, targetUserId) && currentUserId != targetUserId ==>
      r == Outcome(Ok(c), rows)
    ensures r.result.Ok? && (forall c :: c in rows ==> !DirectBetween(c, currentUserId, targetUserId)) ==>
      && r.result.value == Conversation(newId, false, None, now, [currentUserId, targetUserId])
      && r.table == rows + [r.result.value]
    ensures ValidConversations(r.table)
  {
    if currentUserId == targetUserId then
      Outcome(Err(BadRequest(SelfDirectMessage)), rows)
    else
      var k := FirstDirect(rows, currentUserId, targetUserId);
      if k < |rows| then
        ExistingDirect(rows, k, currentUserId, targetUserId);
        Outcome(Ok(rows[k]), rows)
      else
        var c := Conversation(newId, false, None, now, [currentUserId, targetUserId]);
        assert (rows + [c])[|rows|] == c;
        Outcome(Ok(c), rows + [c])
  }

  /** Index of the first direct conversation joining `a` and `b`, or |rows|. */
  function FirstDirect(rows: seq<Conversation>, a: UserId, b: UserId): nat {
    FirstWhere(rows, (c: Conversation) => DirectBetween(c, a, b))
  }

  /** The direct conversation found for `a` and `b` has exactly those two participants
      and is the only one joining them. */
  lemma ExistingDirect(rows: seq<Conversation>, k: nat, a: UserId, b: UserId)
    requires ValidConversations(rows) && k < |rows| && a != b && DirectBetween(rows[k], a, b)
    ensures rows[k].participants in {[a, b], [b, a]}
    ensures forall c :: c in rows && DirectBetween(c, a, b) ==> c == rows[k]
  {
    var p := rows[k].participants;
    assert p == [p[0], p[1]];
    forall c | c in rows && DirectBetween(c, a, b)
      ensures c == rows[k]
    {
      var i :| 0 <= i < |rows| && rows[i] == c;
      OnlyDirect(rows, i, k, a, b);
    }
  }

  /** Calling createOrGetDirectConversation twice returns the same conversation, and the
      second call writes nothing. */
  lemma CreateOrGetDirectIdempotent(rows: seq<Conversation>, currentUserId: UserId, targetUserId: UserId,
                                    id1: ConversationId, now1: nat, id2: ConversationId, now2: nat)
    requires ValidConversations(rows) && FreshConversationId(rows, id1)
    requires FreshConversationId(CreateOrGetDirectStep(rows, currentUserId, targetUserId, id1, now1).table, id2)
    ensures var first := CreateOrGetDirectStep(rows, currentUserId, targetUserId, id1, now1);
      var second := CreateOrGetDirectStep(first.table, currentUserId, targetUserId, id2, now2);
      second == Outcome(first.result, first.table)
  {
  }

  /** createGroupConversation: the members are `currentUserId` followed by `memberIds`,
      each once, in order of first occurrence. Fewer than two of them fails and writes
      nothing; otherwise one group conversation with the given title (or none) and
      exactly those participants is added. */
  function CreateGroupStep(rows: seq<Conversation>, currentUserId: UserId, title: Option<string>,
                           memberIds: seq<UserId>, newId: ConversationId, now: nat)
    : (r: Outcome<Conversation, seq<Conversation>>)
    requires ValidConversations(rows) && FreshConversationId(rows, newId)
    ensures r.result.Err? <==> forall m :: m in memberIds ==> m == currentUserId
    ensures r.result.Err? ==> r == Outcome(Err(BadRequest(GroupTooSmallMessage)), rows)
    ensures r.result.Ok? ==>
      var c := r.result.value;
      && c.id == newId && c.isGroup && c.title == title && c.createdAt == now
      && c.participants == Dedup([currentUserId] + memberIds)
      && c.participants[0] == currentUserId
      && NoDuplicates(c.participants)
      && (forall x :: x in c.participants <==> x == currentUserId || x in memberIds)
      && r.table == rows + [c]
    ensures ValidConversations(r.table)
  {
    var all := Dedup([currentUserId] + memberIds);
    GroupSize(currentUserId, memberIds);
    if |all| < 2 then
      Outcome(Err(BadRequest(GroupTooSmallMessage)), rows)
    else
      var c := Conversation(newId, true, title, now, all);
      AddGroupKeepsValid(rows, c);
      Outcome(Ok(c), rows + [c])
  }

  /** The de-duplicated member list has at least two entries exactly when some member
      other than the creator is given. */
  lemma GroupSize(currentUserId: UserId, memberIds: seq<UserId>)
    ensures |Dedup([currentUserId] + memberIds)| >= 2 <==> exists m :: m in memberIds && m != currentUserId
  {
    var all := Dedup([currentUserId] + memberIds);
    DedupSize(all, currentUserId);
    assert forall x :: x in [currentUserId] + memberIds <==> x == currentUserId || x in memberIds;
  }

  /** Adding a group conversation with a fresh id, two or more participants and no
      repeats keeps the table valid. */
  lemma AddGroupKeepsValid(rows: seq<Conversation>, c: Conversation)
    requires ValidConversations(rows) && FreshConversationId(rows, c.id)
    requires c.isGroup && |c.participants| >= 2 && NoDuplicates(c.participants)
    ensures ValidConversations(rows + [c])
  {
  }

  /** The conversations service and its table. */
  class ConversationsService {
    var rows: seq<Conversation>

    ghost predicate Valid()
      reads this
    {
      ValidConversations(rows)
    }

    constructor (initial: seq<Conversation>)
      requires ValidConversations(initial)
      ensures Valid() && rows == initial
    {
      rows := initial;
    }

    method CreateOrGetDirectConversation(currentUserId: UserId, targetUserId: UserId,
                                         newId: ConversationId, now: nat)
      returns (r: Result<Conversation>)
      requires Valid() && FreshConversationId(rows, newId)
      modifies this
      ensures Valid()
      ensures Outcome(r, rows) == CreateOrGetDirectStep(old(rows), currentUserId, targetUserId, newId, now)
    {
      if currentUserId == targetUserId {
        return Err(BadRequest(SelfDirectMessage));
      }
      var k := FirstDirect(rows, currentUserId, targetUserId);
      if k < |rows| {
        return Ok(rows[k]);
      }
      var conversation := Conversation(newId, false, None, now, [currentUserId, targetUserId]);
      rows := rows + [conversation];
      r := Ok(conversation);
    }

    method CreateGroupConversation(currentUserId: UserId, title: Option<string>, memberIds: seq<UserId>,
                                   newId: ConversationId, now: nat)
      returns (r: Result<Conversation>)
      requires Valid() && FreshConversationId(rows, newId)
      modifies this
      ensures Valid()
      ensures Outcome(r, rows) == CreateGroupStep(old(rows), currentUserId, title, memberIds, newId, now)
    {
      var allMemberIds := Dedup([currentUserId] + memberIds);
      if |allMemberIds| < 2 {
        return Err(BadRequest(GroupTooSmallMessage));
      }
      var conversation := Conversation(newId, true, title, now, allMemberIds);
      rows := rows + [conversation];
      r := Ok(conversation);
    }
  }
}
