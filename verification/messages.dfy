/**
 * src/messages/messages.service.ts: the two parties of a booking write to
 * each other, and reading a booking's conversation marks the reader's
 * unread messages as read.
 */
module Messages {
  import opened Common
  import opened Schema

  const SendOwnOnly := "You can only send messages for your own bookings"
  const ViewOwnOnly := "You can only view messages for your own bookings"

  /** The guards both operations share: the booking exists and the caller is one of its parties. */
  function PartyCheck(bookings: seq<Booking>, bookingId: nat, userId: nat, forbidden: string): (f: Option<Failure>)
    ensures f.None? <==> bookingId < |bookings| && Party(bookings[bookingId], userId)
    ensures bookingId >= |bookings| ==> f == Some(NotFound(BookingNotFound))
    ensures bookingId < |bookings| && !Party(bookings[bookingId], userId) ==> f == Some(Forbidden(forbidden))
  {
    if bookingId >= |bookings| then Some(NotFound(BookingNotFound))
    else if bookings[bookingId].renterId != userId && bookings[bookingId].merchantId != userId then
      Some(Forbidden(forbidden))
    else None
  }

  /** The receiver of a message: the merchant when the renter writes, the renter otherwise. */
  function Receiver(b: Booking, senderId: nat): (receiverId: nat)
    ensures Party(b, receiverId)
    ensures senderId == b.renterId ==> receiverId == b.merchantId
    ensures senderId == b.merchantId && senderId != b.renterId ==> receiverId == b.renterId
    ensures Party(b, senderId) && b.renterId != b.merchantId ==> receiverId != senderId
  {
    if b.renterId == senderId then b.merchantId else b.renterId
  }

  /** `create(bookingId, senderId, dto)`: the message goes to the other party with its content unchanged. */
  method Create(db: Database, bookingId: nat, senderId: nat, content: string) returns (r: Result<nat>)
    requires db.Valid()
    modifies db`messages
    ensures db.Valid()
    ensures PartyCheck(old(db.bookings), bookingId, senderId, SendOwnOnly).Some? ==>
      && r == Err(PartyCheck(old(db.bookings), bookingId, senderId, SendOwnOnly).value)
      && db.messages == old(db.messages)
    ensures PartyCheck(old(db.bookings), bookingId, senderId, SendOwnOnly).None? ==>
      && r == Ok(|old(db.messages)|)
      && db.messages == old(db.messages) +
           [Message(bookingId, senderId, Receiver(old(db.bookings)[bookingId], senderId), content, false)]
  {
    var check := PartyCheck(db.bookings, bookingId, senderId, SendOwnOnly);
    if check.Some? {
      return Err(check.value);
    }
    var m := Message(bookingId, senderId, Receiver(db.bookings[bookingId], senderId), content, false);
    var messages' := db.messages + [m];
    assert forall k :: 0 <= k < |db.messages| ==> messages'[k] == db.messages[k];
    r := Ok(|db.messages|);
    db.messages := messages';
  }

  /** The `where` of the listing: the booking's messages. */
  function InBooking(bookingId: nat): Message -> bool
  {
    (m: Message) => m.bookingId == bookingId
  }

  /** The `where` of the mark-read update: the booking's messages to the reader that are still unread. */
  predicate UnreadFor(m: Message, bookingId: nat, userId: nat)
  {
    m.bookingId == bookingId && m.receiverId == userId && !m.isRead
  }

  /** `message.updateMany({ where: { bookingId, receiverId: userId, isRead: false }, data: { isRead: true } })` */
  function MarkRead(messages: seq<Message>, bookingId: nat, userId: nat): (r: seq<Message>)
    ensures |r| == |messages|
    ensures forall k :: 0 <= k < |messages| && UnreadFor(messages[k], bookingId, userId) ==>
              r[k] == messages[k].(isRead := true)
    ensures forall k :: 0 <= k < |messages| && !UnreadFor(messages[k], bookingId, userId) ==> r[k] == messages[k]
    ensures forall k :: 0 <= k < |r| ==> !UnreadFor(r[k], bookingId, userId)
  {
    seq(|messages|, k requires 0 <= k < |messages| =>
      if UnreadFor(messages[k], bookingId, userId) then messages[k].(isRead := true) else messages[k])
  }

  /** Marking as read twice is marking once. */
  lemma MarkReadIdempotent(messages: seq<Message>, bookingId: nat, userId: nat)
    ensures MarkRead(MarkRead(messages, bookingId, userId), bookingId, userId) == MarkRead(messages, bookingId, userId)
  {
  }

  /**
   * `findByBooking(bookingId, userId)`: the booking's messages, oldest first,
   * as they were before the reader's unread ones are marked as read.
   */
  method FindByBooking(db: Database, bookingId: nat, userId: nat) returns (r: Result<seq<Message>>)
    requires db.Valid()
    modifies db`messages
    ensures db.Valid()
    ensures PartyCheck(old(db.bookings), bookingId, userId, ViewOwnOnly).Some? ==>
      && r == Err(PartyCheck(old(db.bookings), bookingId, userId, ViewOwnOnly).value)
      && db.messages == old(db.messages)
    ensures PartyCheck(old(db.bookings), bookingId, userId, ViewOwnOnly).None? ==>
      && r.Ok?
      && (forall m :: m in r.value <==> m in old(db.messages) && m.bookingId == bookingId)
      && db.messages == MarkRead(old(db.messages), bookingId, userId)
    ensures r.Ok? ==> r.value == Filter(old(db.messages), InBooking(bookingId))
  {
    var check := PartyCheck(db.bookings, bookingId, userId, ViewOwnOnly);
    if check.Some? {
      return Err(check.value);
    }
    r := Ok(Filter(db.messages, InBooking(bookingId)));
    db.messages := MarkRead(db.messages, bookingId, userId);
  }
}
