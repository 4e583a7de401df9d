/**
 * The chat message entity and its repository: an append-only table of
 * messages, queried per user in creation order.
 */
module ChatMessages {
  import Rows

  /** The two senders a stored message can have. */
  datatype Sender = User | Ai

  /**
   * A stored chat message. Ids and user ids are opaque identifiers (only
   * equality matters); `createdAt` is a reading of the clock.
   */
  datatype ChatMessage = ChatMessage(id: nat, userId: nat, text: string, sender: Sender, createdAt: nat)

  /** The label a sender is stored and printed with. */
  function SenderLabel(s: Sender): (tag: string)
    ensures tag == "USER" || tag == "AI"
    ensures s == User <==> tag == "USER"
  {
    match s
    case User => "USER"
    case Ai => "AI"
  }

  /**
   * `findByUserId(userId)`: the user's messages, oldest first. Only that user's
   * messages appear, each as often as it is stored, and none is left out.
   */
  function History(rows: seq<ChatMessage>, userId: nat): (r: seq<ChatMessage>)
    ensures forall m :: m in r <==> m in rows && m.userId == userId
    ensures forall m :: multiset(r)[m] == if m.userId == userId then multiset(rows)[m] else 0
    ensures forall i, j :: 0 <= i < j < |r| ==> r[i].createdAt <= r[j].createdAt
  {
    var mine := Rows.Filter(rows, (m: ChatMessage) => m.userId == userId);
    var r := Rows.SortBy(mine, (m: ChatMessage) => m.createdAt);
    assert forall m :: m in r <==> m in multiset(r);
    r
  }

  /** A user with no stored messages gets the empty history, not an error. */
  lemma EmptyHistory(rows: seq<ChatMessage>, userId: nat)
    requires forall m :: m in rows ==> m.userId != userId
    ensures History(rows, userId) == []
  {
  }

  /** After `save(m)`, the history of `m`'s user contains `m`. */
  lemma SavedMessageInHistory(rows: seq<ChatMessage>, m: ChatMessage)
    ensures m in History(rows + [m], m.userId)
    ensures multiset(History(rows + [m], m.userId)) == multiset(History(rows, m.userId)) + multiset{m}
  {
  }

  /** After `save(m)`, the history of every other user is exactly what it was. */
  lemma {:induction false} OtherHistoriesUnchanged(rows: seq<ChatMessage>, m: ChatMessage, userId: nat)
    requires userId != m.userId
    ensures History(rows + [m], userId) == History(rows, userId)
  {
    Rows.FilterAppend(rows, m, (x: ChatMessage) => x.userId == userId);
  }

  /** `PrismaChatMessageRepository`: the `chatMessage` table as a sequence of rows. */
  class ChatMessageStore {
    var rows: seq<ChatMessage>

    constructor ()
      ensures rows == []
    {
      rows := [];
    }

    /** `save(m)`: stores the message with exactly its fields and returns the same values. */
    method Save(m: ChatMessage) returns (saved: ChatMessage)
      modifies this
      ensures rows == old(rows) + [m]
      ensures saved == m
    {
      rows := rows + [m];
      saved := rows[|rows| - 1];
    }

    /** `findByUserId(userId)` on the current table. */
    function FindByUserId(userId: nat): (r: seq<ChatMessage>)
      reads this
      ensures forall m :: m in r <==> m in rows && m.userId == userId
      ensures forall m :: multiset(r)[m] == if m.userId == userId then multiset(rows)[m] else 0
      ensures forall i, j :: 0 <= i < j < |r| ==> r[i].createdAt <= r[j].createdAt
    {
      History(rows, userId)
    }
  }
}
