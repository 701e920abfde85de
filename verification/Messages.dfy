/** Messages as sessions exchange them (types.ts). */
module Messages {

  import opened Wrappers

  type MessageId = string
  type DeliveryId = string

  datatype Content = Content(text: string, attachments: seq<string>)

  datatype Message = Message(id: MessageId, replyTo: Option<MessageId>, expectsReply: Option<bool>, content: Content)
  {
    predicate IsAsk() {
      expectsReply == Some(true)
    }
  }

  /** What two uses of a message id must agree on. */
  datatype Fingerprint = Fingerprint(to: string, replyTo: Option<MessageId>, expectsReply: Option<bool>, content: Content)

  function FingerprintOf(to: string, m: Message): Fingerprint {
    Fingerprint(to, m.replyTo, m.expectsReply, m.content)
  }
}
