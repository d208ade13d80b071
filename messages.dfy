/**
 * Direct messages: the conversation list of `GetConversations` (the aggregation
 * pipeline followed by the loop that drops conversations whose participant has no
 * user record), the history of one conversation with its read-marking, marking a
 * single message read, and the decision whether a new message is also emailed.
 */
module Messages {

  import opened Wrappers
  import opened Tables
  import opened ObjectIds
  import Paging

  datatype Message = Message(
    id: ObjectId,
    senderId: ObjectId,
    recipientId: ObjectId,
    subject: string,
    content: string,
    isRead: bool,
    createdAt: int)

  /** Store operations whose failure changes what a handler does. */
  datatype Step = Aggregate | DecodeConversations | CountMessages | FindMessages | DecodeMessages
                | MarkConversationRead | UpdateMessage

  // ---------------------------------------------------------------------------
  // The aggregation pipeline of GetConversations

  /** `$match`: the user sent or received the message. */
  function Involves(user: ObjectId): Message -> bool
  {
    (m: Message) => m.senderId == user || m.recipientId == user
  }

  /** `$addFields participant_id`: the recipient when the user sent the message, otherwise the sender. */
  function Other(m: Message, user: ObjectId): ObjectId
  {
    if m.senderId == user then m.recipientId else m.senderId
  }

  /** The sort key of `created_at` descending: newest first. */
  function Newest(m: Message): int
  {
    -m.createdAt
  }

  /** The user's messages after `$match` and `$sort`, newest first. */
  function Timeline(ms: seq<Message>, user: ObjectId): seq<Message>
  {
    Paging.Ordered(ms, Involves(user), Newest)
  }

  function WithParticipant(user: ObjectId, p: ObjectId): Message -> bool
  {
    (m: Message) => Other(m, user) == p
  }

  /** The `$cond` of `unread_count`: in the conversation with `p`, addressed to the user, unread. */
  function UnreadIn(user: ObjectId, p: ObjectId): Message -> bool
  {
    (m: Message) => Other(m, user) == p && m.recipientId == user && !m.isRead
  }

  /** The unread messages `from` sent to `to`: the filter of the read-marking `UpdateMany`. */
  function SentUnread(from: ObjectId, to: ObjectId): Message -> bool
  {
    (m: Message) => m.senderId == from && m.recipientId == to && !m.isRead
  }

  /**
   * The distinct participants of a timeline, in the order of their first message.
   * Since the timeline is newest first, this is the order of the final `$sort` on
   * `last_message.created_at`.
   */
  function Participants(t: seq<Message>, user: ObjectId): seq<ObjectId>
    decreases |t|
  {
    if t == [] then [] else
      var rest := Participants(t[..|t| - 1], user);
      var p := Other(t[|t| - 1], user);
      if p in rest then rest else rest + [p]
  }

  /** Each participant appears once, and every message's other party is a participant. */
  lemma {:induction false} ParticipantsCover(t: seq<Message>, user: ObjectId)
    ensures var ps := Participants(t, user);
            (forall i, j :: 0 <= i < j < |ps| ==> ps[i] != ps[j]) &&
            (forall k :: 0 <= k < |t| ==> Other(t[k], user) in ps)
    decreases |t|
  {
    if t != [] {
      var s := t[..|t| - 1];
      ParticipantsCover(s, user);
      var ps := Participants(t, user);
      forall k | 0 <= k < |t| ensures Other(t[k], user) in ps {
        if k < |t| - 1 {
          assert t[k] == s[k];
        }
      }
    }
  }

  /**
   * Every participant has a message in the timeline, and participants are ordered
   * by the position of their first message.
   */
  lemma {:induction false} ParticipantsFirst(t: seq<Message>, user: ObjectId)
    ensures forall i :: 0 <= i < |Participants(t, user)| ==>
              FirstWhere(t, WithParticipant(user, Participants(t, user)[i])).Some?
    ensures forall i, j :: 0 <= i < j < |Participants(t, user)| ==>
              FirstWhere(t, WithParticipant(user, Participants(t, user)[i])).value <
              FirstWhere(t, WithParticipant(user, Participants(t, user)[j])).value
    decreases |t|
  {
    if t != [] {
      var s := t[..|t| - 1];
      var x := t[|t| - 1];
      assert t == s + [x];
      ParticipantsFirst(s, user);
      var rest := Participants(s, user);
      var ps := Participants(t, user);
      forall i | 0 <= i < |ps|
        ensures FirstWhere(t, WithParticipant(user, ps[i])).Some?
        ensures i < |rest| ==> FirstWhere(t, WithParticipant(user, ps[i])) == FirstWhere(s, WithParticipant(user, rest[i]))
        ensures i >= |rest| ==> FirstWhere(t, WithParticipant(user, ps[i])) == Some(|s|)
      {
        if i < |rest| {
          assert ps[i] == rest[i];
          FirstWhereAppend(s, x, WithParticipant(user, rest[i]));
          assert FirstWhere(s, WithParticipant(user, rest[i])).Some?;
        } else {
          NewParticipantFirst(s, x, user);
        }
      }
      forall i, j | 0 <= i < j < |ps|
        ensures FirstWhere(t, WithParticipant(user, ps[i])).value < FirstWhere(t, WithParticipant(user, ps[j])).value
      {
        assert ps[i] == rest[i];
        if j < |rest| {
          assert ps[j] == rest[j];
          assert FirstWhere(s, WithParticipant(user, rest[i])).value < FirstWhere(s, WithParticipant(user, rest[j])).value;
        } else {
          assert FirstWhere(t, WithParticipant(user, ps[j])) == Some(|s|);
          assert FirstWhere(t, WithParticipant(user, ps[i])).value < |s|;
        }
      }
    }
  }

  /** A message whose other party is new to the timeline starts a conversation of its own. */
  lemma {:induction false} NewParticipantFirst(s: seq<Message>, x: Message, user: ObjectId)
    requires Other(x, user) !in Participants(s, user)
    ensures FirstWhere(s + [x], WithParticipant(user, Other(x, user))) == Some(|s|)
  {
    var q := Other(x, user);
    ParticipantsCover(s, user);
    var f := FirstWhere(s, WithParticipant(user, q));
    if f.Some? {
      assert false;
    }
    FirstWhereAppend(s, x, WithParticipant(user, q));
  }

  /** One result of `$group`: the participant, the newest message, the number unread. */
  datatype Group = Group(participant: ObjectId, last: Message, unread: nat)

  /** The `$group` for participant `p` over the timeline `t`. */
  function GroupOf(t: seq<Message>, user: ObjectId, p: ObjectId): Group
    requires FirstWhere(t, WithParticipant(user, p)).Some?
  {
    Group(p, t[FirstWhere(t, WithParticipant(user, p)).value], CountWhere(t, UnreadIn(user, p)))
  }

  /** Every participant of `ps` has a message in `t`. */
  predicate Grouping(t: seq<Message>, user: ObjectId, ps: seq<ObjectId>)
  {
    forall i :: 0 <= i < |ps| ==> FirstWhere(t, WithParticipant(user, ps[i])).Some?
  }

  /** `$group` over the participants `ps`, in their order. */
  function Grouped(t: seq<Message>, user: ObjectId, ps: seq<ObjectId>): seq<Group>
    requires Grouping(t, user, ps)
  {
    seq(|ps|, i requires 0 <= i < |ps| => GroupOf(t, user, ps[i]))
  }

  /** Distinct participants give groups with distinct participants. */
  lemma {:induction false} GroupedDistinct(t: seq<Message>, user: ObjectId, ps: seq<ObjectId>)
    requires Grouping(t, user, ps)
    requires forall i, j :: 0 <= i < j < |ps| ==> ps[i] != ps[j]
    ensures var cs := Grouped(t, user, ps);
            forall i, j :: 0 <= i < j < |cs| ==> cs[i].participant != cs[j].participant
  {
  }

  /** Each group's last message is a message of `t` with that participant. */
  lemma {:induction false} GroupedLast(ms: seq<Message>, t: seq<Message>, user: ObjectId, ps: seq<ObjectId>)
    requires Grouping(t, user, ps)
    requires forall k :: 0 <= k < |t| ==> t[k] in ms && Involves(user)(t[k])
    ensures var cs := Grouped(t, user, ps);
            forall i :: 0 <= i < |cs| ==>
              cs[i].last in ms && Involves(user)(cs[i].last) && Other(cs[i].last, user) == cs[i].participant
  {
    var cs := Grouped(t, user, ps);
    forall i | 0 <= i < |cs|
      ensures cs[i].last in ms && Involves(user)(cs[i].last) && Other(cs[i].last, user) == cs[i].participant
    {
      var a := FirstWhere(t, WithParticipant(user, ps[i])).value;
      assert cs[i].last == t[a];
    }
  }

  /** Participants ordered by their first message in a newest-first timeline give groups newest first. */
  lemma {:induction false} GroupedNewestFirst(t: seq<Message>, user: ObjectId, ps: seq<ObjectId>)
    requires Grouping(t, user, ps)
    requires Paging.Ascending(t, Newest)
    requires forall i, j :: 0 <= i < j < |ps| ==>
               FirstWhere(t, WithParticipant(user, ps[i])).value < FirstWhere(t, WithParticipant(user, ps[j])).value
    ensures var cs := Grouped(t, user, ps);
            forall i, j :: 0 <= i < j < |cs| ==> cs[i].last.createdAt >= cs[j].last.createdAt
  {
    var cs := Grouped(t, user, ps);
    forall i, j | 0 <= i < j < |cs| ensures cs[i].last.createdAt >= cs[j].last.createdAt {
      var a := FirstWhere(t, WithParticipant(user, ps[i])).value;
      var b := FirstWhere(t, WithParticipant(user, ps[j])).value;
      assert cs[i].last == t[a] && cs[j].last == t[b];
      assert Newest(t[a]) <= Newest(t[b]);
    }
  }

  /**
   * The pipeline's output: one group per participant, each holding a message
   * of that conversation, newest last message first.
   */
  function Conversations(ms: seq<Message>, user: ObjectId): (cs: seq<Group>)
    ensures forall i, j :: 0 <= i < j < |cs| ==> cs[i].participant != cs[j].participant
    ensures forall i :: 0 <= i < |cs| ==>
              cs[i].last in ms && Involves(user)(cs[i].last) && Other(cs[i].last, user) == cs[i].participant
    ensures forall i, j :: 0 <= i < j < |cs| ==> cs[i].last.createdAt >= cs[j].last.createdAt
  {
    var t := Timeline(ms, user);
    var ps := Participants(t, user);
    ParticipantsCover(t, user);
    ParticipantsFirst(t, user);
    TimelineMembers(ms, user);
    GroupedDistinct(t, user, ps);
    GroupedLast(ms, t, user, ps);
    GroupedNewestFirst(t, user, ps);
    Grouped(t, user, ps)
  }

  /** The timeline holds only stored messages the user sent or received. */
  lemma {:induction false} TimelineMembers(ms: seq<Message>, user: ObjectId)
    ensures forall k :: 0 <= k < |Timeline(ms, user)| ==>
              Timeline(ms, user)[k] in ms && Involves(user)(Timeline(ms, user)[k])
  {
    var t := Timeline(ms, user);
    forall k | 0 <= k < |t| ensures t[k] in ms && Involves(user)(t[k]) {
      assert t[k] in multiset(Select(ms, Involves(user)));
    }
  }

  /** A message the user sent or received is in the timeline. */
  lemma {:induction false} InTimeline(ms: seq<Message>, user: ObjectId, k: nat)
    requires k < |ms| && Involves(user)(ms[k])
    ensures ms[k] in Timeline(ms, user)
  {
    assert ms[k] in multiset(Select(ms, Involves(user)));
  }

  /** Every message the user sent or received falls into exactly one conversation, the one with its other party. */
  lemma {:induction false} EveryMessageGrouped(ms: seq<Message>, user: ObjectId, k: nat)
    requires k < |ms| && Involves(user)(ms[k])
    ensures var cs := Conversations(ms, user);
            (exists i :: 0 <= i < |cs| && cs[i].participant == Other(ms[k], user)) &&
            forall i, j ::
              (0 <= i < |cs| && 0 <= j < |cs| && cs[i].participant == Other(ms[k], user) &&
               cs[j].participant == Other(ms[k], user)) ==> i == j
  {
    var t := Timeline(ms, user);
    var ps := Participants(t, user);
    InTimeline(ms, user, k);
    ParticipantsCover(t, user);
    var j :| 0 <= j < |t| && t[j] == ms[k];
    assert Other(t[j], user) in ps;
    var i :| 0 <= i < |ps| && ps[i] == Other(ms[k], user);
    assert Conversations(ms, user)[i].participant == ps[i];
  }

  /** A conversation's last message is the newest message of that conversation. */
  lemma {:induction false} LastIsNewest(ms: seq<Message>, user: ObjectId, i: nat, k: nat)
    requires i < |Conversations(ms, user)| && k < |ms|
    requires Involves(user)(ms[k]) && Other(ms[k], user) == Conversations(ms, user)[i].participant
    ensures ms[k].createdAt <= Conversations(ms, user)[i].last.createdAt
  {
    var t := Timeline(ms, user);
    var p := Conversations(ms, user)[i].participant;
    InTimeline(ms, user, k);
    var j :| 0 <= j < |t| && t[j] == ms[k];
    var f := FirstWhere(t, WithParticipant(user, p)).value;
    assert WithParticipant(user, p)(t[j]);
    assert f <= j;
    assert Paging.Ascending(t, Newest);
    if f < j {
      assert Newest(t[f]) <= Newest(t[j]);
    }
  }

  /**
   * `unread_count` is the number of unread messages the participant sent to the
   * user: exactly the messages that opening the conversation marks read.
   */
  lemma {:induction false} UnreadCountsSentUnread(ms: seq<Message>, user: ObjectId, i: nat)
    requires i < |Conversations(ms, user)|
    ensures Conversations(ms, user)[i].unread == CountWhere(ms, SentUnread(Conversations(ms, user)[i].participant, user))
  {
    var t := Timeline(ms, user);
    var p := Conversations(ms, user)[i].participant;
    var sel := Select(ms, Involves(user));
    CountPermutation(t, sel, UnreadIn(user, p));
    CountSelect(ms, Involves(user), UnreadIn(user, p));
    CountSame(ms, UnreadIn(user, p), SentUnread(p, user));
  }

  function Known(users: set<ObjectId>): Group -> bool
  {
    (g: Group) => g.participant in users
  }

  // ---------------------------------------------------------------------------
  // Read-marking

  /** The `UpdateMany` of `GetMessages`: every unread message `from` sent to `to` becomes read. */
  function MarkRead(ms: seq<Message>, from: ObjectId, to: ObjectId): (r: seq<Message>)
    ensures |r| == |ms|
    ensures forall i :: 0 <= i < |ms| ==> r[i].(isRead := ms[i].isRead) == ms[i]
    ensures forall i :: 0 <= i < |ms| ==>
              r[i].isRead == (ms[i].isRead || (ms[i].senderId == from && ms[i].recipientId == to))
  {
    seq(|ms|, i requires 0 <= i < |ms| => Marked(ms[i], from, to))
  }

  function Marked(m: Message, from: ObjectId, to: ObjectId): (r: Message)
    ensures r.(isRead := m.isRead) == m
    ensures r.isRead == (m.isRead || (m.senderId == from && m.recipientId == to))
  {
    if SentUnread(from, to)(m) then m.(isRead := true) else m
  }

  /**
   * After opening the conversation with `p`, the user has no unread message from
   * `p`, and the unread messages from everyone else are as before.
   */
  lemma {:induction false} MarkReadClearsOnlyThatConversation(ms: seq<Message>, user: ObjectId, p: ObjectId, q: ObjectId)
    ensures CountWhere(MarkRead(ms, p, user), SentUnread(q, user)) ==
            if q == p then 0 else CountWhere(ms, SentUnread(q, user))
  {
    var r := MarkRead(ms, p, user);
    if q != p {
      forall i | 0 <= i < |ms| ensures SentUnread(q, user)(r[i]) == SentUnread(q, user)(ms[i]) {
        assert r[i].(isRead := ms[i].isRead) == ms[i];
      }
      CountSame(ms, SentUnread(q, user), SentUnread(q, user));
      CountSameAcross(ms, r, SentUnread(q, user));
    }
  }

  /** Two tables that agree on a condition position by position have the same count. */
  lemma {:induction false} CountSameAcross(a: seq<Message>, b: seq<Message>, p: Message -> bool)
    requires |a| == |b|
    requires forall i :: 0 <= i < |a| ==> p(a[i]) == p(b[i])
    ensures CountWhere(a, p) == CountWhere(b, p)
  {
    if a != [] {
      assert forall i :: 0 <= i < |a| - 1 ==> a[1..][i] == a[i + 1] && b[1..][i] == b[i + 1];
      CountSameAcross(a[1..], b[1..], p);
    }
  }

  /** Marking is idempotent: opening the same conversation twice marks nothing more. */
  lemma {:induction false} MarkReadIdempotent(ms: seq<Message>, from: ObjectId, to: ObjectId)
    ensures MarkRead(MarkRead(ms, from, to), from, to) == MarkRead(ms, from, to)
  {
    var once := MarkRead(ms, from, to);
    var twice := MarkRead(once, from, to);
    forall i | 0 <= i < |ms| ensures twice[i] == once[i] {
      assert twice[i].(isRead := once[i].isRead) == once[i];
    }
  }

  /** The history filter: messages between the user and the participant, in either direction. */
  function Between(user: ObjectId, p: ObjectId): Message -> bool
  {
    (m: Message) => (m.senderId == user && m.recipientId == p) || (m.senderId == p && m.recipientId == user)
  }

  // ---------------------------------------------------------------------------
  // Email notification

  /** The stored `email_notifications.messages` preference of a user. */
  datatype Preferences = Preferences(emailMessages: bool)

  /**
   * `sendEmailNotification`'s decision; `prefs` is `None` when the lookup found no
   * preferences or failed.  The email is withheld only when stored preferences
   * switch message notifications off.
   */
  function EmailWanted(prefs: Option<Preferences>): (send: bool)
    ensures !send <==> prefs.Some? && !prefs.value.emailMessages
  {
    match prefs
    case None => true
    case Some(stored) => stored.emailMessages
  }

  // ---------------------------------------------------------------------------
  // The messages collection

  class MessageStore {
    var messages: seq<Message>

    constructor ()
      ensures messages == []
    {
      messages := [];
    }

    /**
     * `GetConversations`: the pipeline's groups, in order, without those whose
     * participant has no user record (`users` holds the IDs that have one).
     */
    method GetConversations(user: ObjectId, users: set<ObjectId>, fails: set<Step>)
      returns (reply: Reply, convs: seq<Group>)
      ensures Aggregate in fails ==> reply == Reply(500, "Failed to fetch conversations") && convs == []
      ensures Aggregate !in fails && DecodeConversations in fails ==>
                reply == Reply(500, "Failed to decode conversations") && convs == []
      ensures Aggregate !in fails && DecodeConversations !in fails ==>
                reply == Reply(200, "") && convs == Select(Conversations(messages, user), Known(users))
      ensures forall i :: 0 <= i < |convs| ==> convs[i].participant in users
    {
      if Aggregate in fails {
        return Reply(500, "Failed to fetch conversations"), [];
      }
      if DecodeConversations in fails {
        return Reply(500, "Failed to decode conversations"), [];
      }
      convs := KeepWhere(Conversations(messages, user), Known(users));
      reply := Reply(200, "");
    }

    /**
     * `GetMessages`: one page of the conversation with the participant, newest
     * first, read before the unread messages the participant sent are marked read;
     * a failed marking is ignored.
     */
    method GetMessages(user: ObjectId, participantHex: string, page: int, limit: int, fails: set<Step>)
      returns (reply: Reply, listing: Option<Paging.Listing<Message>>)
      modifies this
      ensures FromHex(participantHex).None? ==>
                reply == Reply(400, "Invalid participant ID") && listing.None? && messages == old(messages)
      ensures FromHex(participantHex).Some? && CountMessages in fails ==>
                reply == Reply(500, "Failed to count messages") && listing.None? && messages == old(messages)
      ensures FromHex(participantHex).Some? && CountMessages !in fails && FindMessages in fails ==>
                reply == Reply(500, "Failed to fetch messages") && listing.None? && messages == old(messages)
      ensures FromHex(participantHex).Some? && CountMessages !in fails && FindMessages !in fails &&
              DecodeMessages in fails ==>
                reply == Reply(500, "Failed to decode messages") && listing.None? && messages == old(messages)
      ensures FromHex(participantHex).Some? && CountMessages !in fails && FindMessages !in fails &&
              DecodeMessages !in fails ==>
                var p := FromHex(participantHex).value;
                reply == Reply(200, "") &&
                listing == Some(Paging.List(old(messages), Between(user, p), Newest,
                                            Paging.Clamp(page, limit, Paging.MessageLimit))) &&
                messages == if MarkConversationRead in fails then old(messages) else MarkRead(old(messages), p, user)
    {
      var parsed := FromHex(participantHex);
      if parsed.None? {
        return Reply(400, "Invalid participant ID"), None;
      }
      if CountMessages in fails {
        return Reply(500, "Failed to count messages"), None;
      }
      if FindMessages in fails {
        return Reply(500, "Failed to fetch messages"), None;
      }
      if DecodeMessages in fails {
        return Reply(500, "Failed to decode messages"), None;
      }
      var p := parsed.value;
      var w := Paging.Clamp(page, limit, Paging.MessageLimit);
      listing := Some(Paging.List(messages, Between(user, p), Newest, w));
      if MarkConversationRead !in fails {
        messages := MarkRead(messages, p, user);
      }
      reply := Reply(200, "");
    }

    /**
     * `MarkAsRead`: `UpdateOne` on the first message with that ID addressed to the
     * caller.  A message addressed to someone else is left alone and the answer is
     * still 200, as it is when no message matches; only a store failure gives 404.
     */
    method MarkAsRead(user: ObjectId, messageHex: string, fails: set<Step>) returns (reply: Reply)
      modifies this
      ensures FromHex(messageHex).None? ==> reply == Reply(400, "Invalid message ID") && messages == old(messages)
      ensures FromHex(messageHex).Some? && UpdateMessage in fails ==>
                reply == Reply(404, "Message not found or access denied") && messages == old(messages)
      ensures FromHex(messageHex).Some? && UpdateMessage !in fails ==>
                var found := FirstWhere(old(messages), AddressedTo(FromHex(messageHex).value, user));
                reply == Reply(200, "Message marked as read") &&
                messages == if found.None? then old(messages)
                            else old(messages)[found.value := old(messages)[found.value].(isRead := true)]
      ensures |messages| == |old(messages)|
      ensures forall i :: 0 <= i < |messages| && messages[i] != old(messages)[i] ==>
                old(messages)[i].recipientId == user && messages[i] == old(messages)[i].(isRead := true)
    {
      var parsed := FromHex(messageHex);
      if parsed.None? {
        return Reply(400, "Invalid message ID");
      }
      if UpdateMessage in fails {
        return Reply(404, "Message not found or access denied");
      }
      var found := FirstWhere(messages, AddressedTo(parsed.value, user));
      if found.Some? {
        messages := messages[found.value := messages[found.value].(isRead := true)];
      }
      reply := Reply(200, "Message marked as read");
    }
  }

  /**
   * The loop of `GetConversations`, over the pipeline's results: a result is kept
   * when `keep` holds for it (its participant's record is found), in order.
   */
  method KeepWhere<T>(results: seq<T>, keep: T -> bool) returns (kept: seq<T>)
    ensures kept == Select(results, keep)
  {
    kept := [];
    var i := 0;
    while i < |results|
      invariant 0 <= i <= |results|
      invariant kept == Select(results[..i], keep)
    {
      var x := results[i];
      SelectPrefix(results, i, keep);
      if keep(x) {
        kept := kept + [x];
      }
      i := i + 1;
    }
    assert results[..|results|] == results;
  }

  /** The filter of `MarkAsRead`: that message, and only if the caller is its recipient. */
  function AddressedTo(id: ObjectId, user: ObjectId): Message -> bool
  {
    (m: Message) => m.id == id && m.recipientId == user
  }
}
