/**
 * The `/callback` webhook handler: maps the parse outcome to a status code,
 * walks the event batch in order and decides, per event, which outbound calls
 * and which reply the bot makes.
 *
 * The two calls into the platform's APIs (issuing a link token, the unlink
 * request) and the reply send are not modelled; their outcomes for each event
 * are given as an `Upstream` value. The handler's observable behaviour is the
 * ordered trace of `Effect`s it performs plus the status it answers with.
 */
module Callback {
  import opened Wrappers
  import opened Webhook
  import opened Messaging

  /** Exact trigger phrases of the text rule table. */
  const LinkTrigger: string := "連携する"
  const UnlinkTrigger: string := "連携解除"

  /** Text replies. */
  const UnlinkDone: string := "連携解除が完了しました。"
  const UnlinkFailed: string := "連携解除が失敗しました。"
  const LinkDone: string := "アカウント連携が完了しました。"
  const LinkFailed: string := "アカウント連携が失敗しました。"
  const EchoPrefix: string := "あなたは"
  const EchoSuffix: string := "と言いました。"

  /** The buttons template that starts linking. */
  const PromptAltText: string := "Buttons template"
  const PromptTitle: string := "アカウント連携開始"
  const PromptText: string := "連携を開始します。リンク先でログイン\nを行なってください。"
  const PromptLabel: string := "連携開始"
  const LinkTokenQuery: string := "?linkToken="

  /** Account-link results that get a reply. */
  const ResultOk: string := "ok"
  const ResultFailed: string := "failed"

  /** Read-only process configuration: the front-end login URL. */
  datatype Config = Config(loginBaseUrl: string)

  /**
   * What the outside world answers for one event: the link token issued (None
   * when the request fails), whether the unlink request succeeds, and whether
   * the reply send succeeds. The first two are consulted only if the event makes
   * that call; `replyOk` is never consulted, since a failed send is only logged.
   */
  datatype Upstream = Upstream(linkToken: Option<string>, unlinkOk: bool, replyOk: bool)

  /** An observable action of the handler, in the order it performs them. */
  datatype Effect =
    | RequestLinkToken(userId: string)
    | RequestUnlink(userId: string)
    | Reply(request: ReplyRequest)

  /** The effects of one event, and whether handling stops the whole batch there. */
  datatype Step = Step(effects: seq<Effect>, abort: bool)

  /** The HTTP status and the ordered effects of one delivery. */
  datatype Response = Response(status: int, effects: seq<Effect>)

  /** The login URL handed to the user: the base URL with the token as query parameter. */
  function LoginUrl(cfg: Config, token: string): (r: string)
    ensures |r| == |cfg.loginBaseUrl| + |LinkTokenQuery| + |token|
    ensures r[..|cfg.loginBaseUrl|] == cfg.loginBaseUrl
    ensures r[|cfg.loginBaseUrl|..|r| - |token|] == LinkTokenQuery
    ensures r[|r| - |token|..] == token
  {
    cfg.loginBaseUrl + LinkTokenQuery + token
  }

  /** The echo sentence, which embeds the received text unchanged. */
  function EchoText(text: string): (r: string)
    ensures |r| == |EchoPrefix| + |text| + |EchoSuffix|
    ensures r[..|EchoPrefix|] == EchoPrefix
    ensures r[|EchoPrefix|..|r| - |EchoSuffix|] == text
    ensures r[|r| - |EchoSuffix|..] == EchoSuffix
  {
    EchoPrefix + text + EchoSuffix
  }

  /** A reply of one text message. */
  function TextReply(replyToken: string, text: string): ReplyRequest
  {
    ReplyRequest(replyToken, [TextMessage(text)])
  }

  /** A reply of the buttons template whose only button opens `loginUrl`. */
  function LinkPrompt(replyToken: string, loginUrl: string): ReplyRequest
  {
    ReplyRequest(replyToken, [TemplateMessage(PromptAltText,
      ButtonsTemplate(PromptTitle, PromptText, [UriAction(PromptLabel, loginUrl)]))])
  }

  /** The reply requests of a trace, in order. */
  function Replies(effects: seq<Effect>): (r: seq<ReplyRequest>)
    ensures |r| <= |effects|
  {
    if effects == [] then []
    else (if effects[0].Reply? then [effects[0].request] else []) + Replies(effects[1..])
  }

  /**
   * Handling one event: the decision table of the handler's loop body. An event
   * makes at most one outbound call and one reply; handling stops only after a
   * token request that got no token, and then nothing else happens.
   */
  function EventStep(cfg: Config, e: Event, up: Upstream): (r: Step)
    ensures |r.effects| <= 2
    ensures forall k :: 0 <= k < |r.effects| && !r.effects[k].Reply? ==> k == 0
    ensures forall k :: 0 <= k < |r.effects| && r.effects[k].Reply? ==> k == |r.effects| - 1
    ensures r.abort ==> |r.effects| == 1 && r.effects[0].RequestLinkToken?
  {
    match e
    case MessageEvent(source, replyToken, message) =>
      // a failed extraction is only logged: the empty id is used
      var userId := ExtractUserId(source).userId;
      (match message
       case TextMessageContent(text) =>
         if text == LinkTrigger then
           (match up.linkToken
            case None => Step([RequestLinkToken(userId)], true)
            case Some(token) =>
              Step([RequestLinkToken(userId), Reply(LinkPrompt(replyToken, LoginUrl(cfg, token)))], false))
         else if text == UnlinkTrigger then
           Step([RequestUnlink(userId),
                 Reply(TextReply(replyToken, if up.unlinkOk then UnlinkDone else UnlinkFailed))], false)
         else
           Step([Reply(TextReply(replyToken, EchoText(text)))], false)
       case OtherContent(_) => Step([], false))
    case AccountLinkEvent(_, replyToken, result) =>
      if result == ResultOk then Step([Reply(TextReply(replyToken, LinkDone))], false)
      else if result == ResultFailed then Step([Reply(TextReply(replyToken, LinkFailed))], false)
      else Step([], false)
    case OtherEvent(_) => Step([], false)
  }

  /**
   * Handling a batch in order, stopping after the first event whose step aborts;
   * the trace holds at most two effects per event.
   */
  function Dispatch(cfg: Config, events: seq<Event>, ups: seq<Upstream>): (r: seq<Effect>)
    requires |ups| == |events|
    ensures |r| <= 2 * |events|
  {
    if events == [] then []
    else
      var s := EventStep(cfg, events[0], ups[0]);
      if s.abort then s.effects else s.effects + Dispatch(cfg, events[1..], ups[1..])
  }

  /**
   * Handling one delivery: a parse failure answers 400 for a bad signature and
   * 500 otherwise, with no event handled; a parsed batch is acknowledged with
   * 200, also when handling stopped early.
   */
  function Handle(cfg: Config, parse: ParseResult, ups: seq<Upstream>): (r: Response)
    requires parse.Parsed? ==> |ups| == |parse.events|
    ensures r.status == 400 <==> parse.ErrInvalidSignature?
    ensures r.status == 500 <==> parse.ErrOther?
    ensures r.status == 200 <==> parse.Parsed?
    ensures !parse.Parsed? ==> r.effects == []
  {
    match parse
    case ErrInvalidSignature => Response(400, [])
    case ErrOther(_) => Response(500, [])
    case Parsed(events) => Response(200, Dispatch(cfg, events, ups))
  }

  /** The loop body of the handler for one event. */
  method HandleEvent(cfg: Config, e: Event, up: Upstream) returns (out: seq<Effect>, abort: bool)
    ensures Step(out, abort) == EventStep(cfg, e, up)
  {
    out, abort := [], false;
    match e {
      case MessageEvent(source, replyToken, message) =>
        var extracted := ExtractUserId(source);
        var userId := extracted.userId;
        match message {
          case TextMessageContent(text) =>
            if text == LinkTrigger {
              out := out + [RequestLinkToken(userId)];
              if up.linkToken.None? {
                abort := true;
                return;
              }
              var loginUrl := LoginUrl(cfg, up.linkToken.value);
              // a failed send is only logged
              out := out + [Reply(LinkPrompt(replyToken, loginUrl))];
            } else {
              var replyMessage := "";
              if text == UnlinkTrigger {
                out := out + [RequestUnlink(userId)];
                if !up.unlinkOk {
                  replyMessage := UnlinkFailed;
                } else {
                  replyMessage := UnlinkDone;
                }
              } else {
                replyMessage := EchoText(text);
              }
              out := out + [Reply(TextReply(replyToken, replyMessage))];
            }
          case OtherContent(_) =>
        }
      case AccountLinkEvent(_, replyToken, result) =>
        if result == ResultOk {
          out := out + [Reply(TextReply(replyToken, LinkDone))];
        } else if result == ResultFailed {
          out := out + [Reply(TextReply(replyToken, LinkFailed))];
        }
      case OtherEvent(_) =>
    }
  }

  /** The `/callback` handler: status mapping, then the event loop with its early return. */
  method HandleCallback(cfg: Config, parse: ParseResult, ups: seq<Upstream>)
    returns (status: int, effects: seq<Effect>)
    requires parse.Parsed? ==> |ups| == |parse.events|
    ensures Response(status, effects) == Handle(cfg, parse, ups)
  {
    effects := [];
    if !parse.Parsed? {
      if parse.ErrInvalidSignature? {
        status := 400;
      } else {
        status := 500;
      }
      return;
    }
    status := 200;
    var events := parse.events;
    var i := 0;
    while i < |events|
      invariant 0 <= i <= |events|
      invariant effects + Dispatch(cfg, events[i..], ups[i..]) == Dispatch(cfg, events, ups)
    {
      var out, abort := HandleEvent(cfg, events[i], ups[i]);
      effects := effects + out;
      if abort {
        return;
      }
      assert events[i..][1..] == events[i + 1..];
      assert ups[i..][1..] == ups[i + 1..];
      i := i + 1;
    }
  }
}
