/** The outbound side: the reply requests sent to the messaging API. */
module Messaging {

  /** A button that opens `uri`. */
  datatype UriAction = UriAction(labelText: string, uri: string)

  /** A buttons template: a title, a prompt text and its buttons. */
  datatype ButtonsTemplate = ButtonsTemplate(title: string, text: string, actions: seq<UriAction>)

  datatype Message =
    | TextMessage(text: string)
    | TemplateMessage(altText: string, template: ButtonsTemplate)

  /** One call of the reply API: a reply token and the messages to send on it. */
  datatype ReplyRequest = ReplyRequest(replyToken: string, messages: seq<Message>)
}
