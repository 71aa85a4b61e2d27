/** The `/messages` routes: a flat collection of direct messages keyed by sender and
    receiver, with no chat document around them. The Message schema is not part of
    this model; the fields it evidently fills are assumed: a new message starts unread
    (`read` = false) and `createdAt` is the time of the insert. */
module FlatMessages {
  import opened Common
  import opened Collections

  datatype DirectMessage = DirectMessage(
    id: Id,
    sender: Id,
    receiver: Id,
    content: string,
    read: bool,
    createdAt: Time)

  /** The `$or` of `GET /:userId`: `a` wrote to `b` or `b` wrote to `a`. */
  predicate Between(m: DirectMessage, a: Id, b: Id) {
    (m.sender == a && m.receiver == b) || (m.sender == b && m.receiver == a)
  }

  /** `sort({createdAt: 1})`. */
  predicate NotLater(x: DirectMessage, y: DirectMessage) {
    x.createdAt <= y.createdAt
  }

  /** The filter of `PUT /read/:userId`: unread messages `sender` wrote to `receiver`. */
  predicate Unread(m: DirectMessage, sender: Id, receiver: Id) {
    m.sender == sender && m.receiver == receiver && !m.read
  }

  /** `updateMany({sender, receiver, read: false}, {read: true})`. */
  function MarkRead(ms: seq<DirectMessage>, sender: Id, receiver: Id): (r: seq<DirectMessage>)
    ensures |r| == |ms|
    ensures forall i :: 0 <= i < |r| ==> r[i] == ms[i].(read := r[i].read)
    ensures forall i :: 0 <= i < |r| ==> r[i].read == (ms[i].read || (ms[i].sender == sender && ms[i].receiver == receiver))
  {
    seq(|ms|, i requires 0 <= i < |ms| => if Unread(ms[i], sender, receiver) then ms[i].(read := true) else ms[i])
  }

  /** After marking, no unread message from `sender` to `receiver` is left. */
  lemma MarkReadClearsPair(ms: seq<DirectMessage>, sender: Id, receiver: Id)
    ensures forall m <- MarkRead(ms, sender, receiver) :: !Unread(m, sender, receiver)
  {
  }

  /** Marking touches only unread messages `sender` wrote to `receiver`; in particular
      none the reader sent to anybody else or received from anybody else. */
  lemma MarkReadOnlyTouchesPair(ms: seq<DirectMessage>, sender: Id, receiver: Id, i: nat)
    requires i < |ms|
    ensures MarkRead(ms, sender, receiver)[i] != ms[i] <==> Unread(ms[i], sender, receiver)
  {
  }

  /** A second mark-read right after the first changes nothing. */
  lemma MarkReadIdempotent(ms: seq<DirectMessage>, sender: Id, receiver: Id)
    ensures MarkRead(MarkRead(ms, sender, receiver), sender, receiver) == MarkRead(ms, sender, receiver)
  {
  }

  class MessageStore {
    var messages: seq<DirectMessage>
    /** The ObjectId generator: the next id to hand out. */
    var nextId: Id

    /** Every message has its own id, and the generator never hands one out twice. */
    ghost predicate Valid()
      reads this
    {
      && (forall m <- messages :: m.id < nextId)
      && (forall i, j :: 0 <= i < j < |messages| ==> messages[i].id != messages[j].id)
    }

    constructor ()
      ensures Valid() && messages == [] && nextId == 0
    {
      messages := [];
      nextId := 0;
    }

    /** `GET /:userId`: the messages between the caller and `userId`, oldest first. */
    function Conversation(callerId: Id, userId: Id): (r: Response<seq<DirectMessage>>)
      reads this
      ensures r.Ok?
      ensures forall m :: m in r.value <==> m in messages && Between(m, callerId, userId)
      ensures forall m :: multiset(r.value)[m] == if Between(m, callerId, userId) then multiset(messages)[m] else 0
      ensures SortedBy(r.value, NotLater)
    {
      var pair := Filter(messages, m => Between(m, callerId, userId));
      assert TotalPreorder(NotLater);
      SortedMembers(pair, NotLater);
      Ok(Sort(pair, NotLater))
    }

    /** `POST /`: stores one message from the caller to `receiverId`; the receiver is
        not looked up and no role is checked. */
    method Send(callerId: Id, receiverId: Id, content: string, now: Time) returns (r: Response<DirectMessage>)
      requires Valid()
      modifies this
      ensures Valid()
      ensures r == Ok(DirectMessage(old(nextId), callerId, receiverId, content, false, now))
      ensures messages == old(messages) + [r.value]
      ensures nextId == old(nextId) + 1
    {
      var message := DirectMessage(nextId, callerId, receiverId, content, false, now);
      nextId := nextId + 1;
      messages := messages + [message];
      r := Ok(message);
    }

    /** `PUT /read/:userId`: marks read what `userId` sent to the caller. */
    method MarkAsRead(callerId: Id, userId: Id) returns (r: Response<string>)
      requires Valid()
      modifies this
      ensures Valid() && nextId == old(nextId)
      ensures messages == MarkRead(old(messages), userId, callerId)
      ensures r == Ok("Messages marked as read")
    {
      messages := MarkRead(messages, userId, callerId);
      r := Ok("Messages marked as read");
    }
  }
}
