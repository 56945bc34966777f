/**
 * The inbound side of the webhook: the events a delivery carries, once the
 * platform SDK has checked the signature and decoded the body, and the
 * source of each event.
 */
module Webhook {

  /** Who sent an event. Only a direct user source is addressable by user id. */
  datatype Source =
    | UserSource(userId: string)
    | GroupSource(groupId: string, userId: string)
    | RoomSource(roomId: string, userId: string)
    | UnknownSource(kind: string)

  /** The content of a message event: text, or any other kind (sticker, image, ...). */
  datatype MessageContent =
    | TextMessageContent(text: string)
    | OtherContent(kind: string)

  /** One event of a delivery; kinds the handler does not switch on are `OtherEvent`. */
  datatype Event =
    | MessageEvent(source: Source, replyToken: string, message: MessageContent)
    | AccountLinkEvent(source: Source, replyToken: string, result: string)
    | OtherEvent(kind: string)

  /** What parsing a request yields: the event batch in delivery order, or one of two errors. */
  datatype ParseResult =
    | Parsed(events: seq<Event>)
    | ErrInvalidSignature
    | ErrOther(reason: string)

  /** The pair `(userId, err)` that extracting a user id returns. */
  datatype ExtractedId = ExtractedId(userId: string, failed: bool)

  /**
   * The user id of a direct user source; every other source (even a group or
   * room source that names a user) yields the empty id and an error.
   */
  function ExtractUserId(source: Source): (r: ExtractedId)
    ensures r.failed <==> !source.UserSource?
    ensures !r.failed ==> r.userId == source.userId
    ensures r.failed ==> r.userId == ""
  {
    match source
    case UserSource(id) => ExtractedId(id, false)
    case _ => ExtractedId("", true)
  }
}
