/**
 * What the `/callback` handler promises, stated over the decision table
 * `EventStep` and the batch walk `Dispatch`.
 */
module CallbackProperties {
  import opened Wrappers
  import opened Webhook
  import opened Messaging
  import opened Callback

  /** No event of the batch stops handling: the loop runs to the end. */
  ghost predicate Completes(cfg: Config, events: seq<Event>, ups: seq<Upstream>)
    requires |ups| == |events|
  {
    forall i :: 0 <= i < |events| ==> !EventStep(cfg, events[i], ups[i]).abort
  }

  /** Events the handler only logs: non-text messages, unknown kinds, other link results. */
  predicate Silent(e: Event)
  {
    || (e.MessageEvent? && e.message.OtherContent?)
    || e.OtherEvent?
    || (e.AccountLinkEvent? && e.result != ResultOk && e.result != ResultFailed)
  }

  predicate IsTextEvent(e: Event)
  {
    e.MessageEvent? && e.message.TextMessageContent?
  }

  // ---------------------------------------------------------------- traces

  lemma {:induction false} RepliesAppend(a: seq<Effect>, b: seq<Effect>)
    ensures Replies(a + b) == Replies(a) + Replies(b)
  {
    if a == [] {
      assert a + b == b;
    } else {
      var head := if a[0].Reply? then [a[0].request] else [];
      assert (a + b)[0] == a[0];
      assert (a + b)[1..] == a[1..] + b;
      RepliesAppend(a[1..], b);
      calc {
        Replies(a + b);
        head + Replies(a[1..] + b);
        head + (Replies(a[1..]) + Replies(b));
        (head + Replies(a[1..])) + Replies(b);
      }
    }
  }

  // ---------------------------------------------------------------- one event

  /** Handling stops exactly when the link trigger's token request fails, after that request. */
  lemma AbortOnlyOnTokenFailure(cfg: Config, e: Event, up: Upstream)
    ensures EventStep(cfg, e, up).abort <==>
      (e.MessageEvent? && e.message == TextMessageContent(LinkTrigger) && up.linkToken.None?)
    ensures EventStep(cfg, e, up).abort ==>
      EventStep(cfg, e, up).effects == [RequestLinkToken(ExtractUserId(e.source).userId)]
  {
  }

  /** The link trigger with an issued token: one token request, then one buttons reply. */
  lemma LinkTriggerWithToken(cfg: Config, source: Source, replyToken: string, up: Upstream)
    requires up.linkToken.Some?
    ensures var s := EventStep(cfg, MessageEvent(source, replyToken, TextMessageContent(LinkTrigger)), up);
      && !s.abort
      && s.effects == [RequestLinkToken(ExtractUserId(source).userId),
                       Reply(ReplyRequest(replyToken, [TemplateMessage(PromptAltText,
                         ButtonsTemplate(PromptTitle, PromptText,
                           [UriAction(PromptLabel, cfg.loginBaseUrl + "?linkToken=" + up.linkToken.value)]))]))]
  {
  }

  /** The link trigger without a token: the request is made, nothing is replied, handling stops. */
  lemma LinkTriggerWithoutToken(cfg: Config, source: Source, replyToken: string, up: Upstream)
    requires up.linkToken.None?
    ensures var s := EventStep(cfg, MessageEvent(source, replyToken, TextMessageContent(LinkTrigger)), up);
      s.abort && s.effects == [RequestLinkToken(ExtractUserId(source).userId)] && Replies(s.effects) == []
  {
  }

  /** The unlink trigger: one unlink request, then one text reply saying how it went. */
  lemma UnlinkTriggerReply(cfg: Config, source: Source, replyToken: string, up: Upstream)
    ensures var s := EventStep(cfg, MessageEvent(source, replyToken, TextMessageContent(UnlinkTrigger)), up);
      && !s.abort
      && s.effects == [RequestUnlink(ExtractUserId(source).userId),
                       Reply(ReplyRequest(replyToken, [TextMessage(
                         if up.unlinkOk then "連携解除が完了しました。" else "連携解除が失敗しました。")]))]
  {
  }

  /** Any other text is echoed, embedded unchanged, with no outbound call. */
  lemma EchoOtherText(cfg: Config, source: Source, replyToken: string, text: string, up: Upstream)
    requires text != LinkTrigger && text != UnlinkTrigger
    ensures var s := EventStep(cfg, MessageEvent(source, replyToken, TextMessageContent(text)), up);
      && !s.abort
      && s.effects == [Reply(ReplyRequest(replyToken, [TextMessage("あなたは" + text + "と言いました。")]))]
  {
  }

  /** Two texts are echoed alike only if they are the same text. */
  lemma EchoInjective(a: string, b: string)
    requires EchoText(a) == EchoText(b)
    ensures a == b
  {
    assert a == EchoText(a)[|EchoPrefix|..|EchoText(a)| - |EchoSuffix|];
  }

  /** The rule table compares exactly: surrounding blanks make a trigger an ordinary text. */
  lemma TriggersMatchExactly(cfg: Config, source: Source, replyToken: string, up: Upstream)
    ensures EventStep(cfg, MessageEvent(source, replyToken, TextMessageContent(" 連携する")), up)
      == Step([Reply(TextReply(replyToken, "あなたは 連携すると言いました。"))], false)
    ensures EventStep(cfg, MessageEvent(source, replyToken, TextMessageContent("連携解除\n")), up)
      == Step([Reply(TextReply(replyToken, "あなたは連携解除\nと言いました。"))], false)
  {
    assert EchoText(" 連携する") == "あなたは 連携すると言いました。";
    assert EchoText("連携解除\n") == "あなたは連携解除\nと言いました。";
  }

  /** Account-link results: "ok" and "failed" get one reply each, anything else none. */
  lemma AccountLinkReply(cfg: Config, source: Source, replyToken: string, result: string, up: Upstream)
    ensures var s := EventStep(cfg, AccountLinkEvent(source, replyToken, result), up);
      && !s.abort
      && (result == "ok" ==> s.effects == [Reply(TextReply(replyToken, "アカウント連携が完了しました。"))])
      && (result == "failed" ==> s.effects == [Reply(TextReply(replyToken, "アカウント連携が失敗しました。"))])
      && (result != "ok" && result != "failed" ==> s.effects == [])
  {
  }

  /** Silent events produce no effect and do not stop the batch. */
  lemma SilentEventStep(cfg: Config, e: Event, up: Upstream)
    requires Silent(e)
    ensures EventStep(cfg, e, up) == Step([], false)
  {
  }

  /** An event gets at most one reply, on its own reply token, and every text message exactly one unless handling stops. */
  lemma StepReplies(cfg: Config, e: Event, up: Upstream)
    ensures var rs := Replies(EventStep(cfg, e, up).effects);
      && |rs| <= 1
      && (e.OtherEvent? ==> rs == [])
      && (forall k :: 0 <= k < |rs| ==> !e.OtherEvent? && rs[k].replyToken == e.replyToken)
      && (IsTextEvent(e) && !EventStep(cfg, e, up).abort ==> |rs| == 1)
  {
  }

  /** For any source other than a direct user the empty id goes to the link and unlink requests. */
  lemma NonUserSourceUsesEmptyId(cfg: Config, source: Source, replyToken: string, text: string, up: Upstream)
    requires !source.UserSource?
    requires text == LinkTrigger || text == UnlinkTrigger
    ensures var s := EventStep(cfg, MessageEvent(source, replyToken, TextMessageContent(text)), up);
      s.effects[0] == (if text == LinkTrigger then RequestLinkToken("") else RequestUnlink(""))
  {
  }

  // ---------------------------------------------------------------- the batch

  /** A batch whose first event does not stop completes exactly when its tail does. */
  lemma CompletesTail(cfg: Config, events: seq<Event>, ups: seq<Upstream>)
    requires |ups| == |events| && events != []
    ensures Completes(cfg, events, ups) <==>
      !EventStep(cfg, events[0], ups[0]).abort && Completes(cfg, events[1..], ups[1..])
  {
  }

  /** Handling a batch in two parts: the second part runs only if the first completes. */
  lemma {:induction false} DispatchAppend(cfg: Config, a: seq<Event>, b: seq<Event>, ua: seq<Upstream>, ub: seq<Upstream>)
    requires |ua| == |a| && |ub| == |b|
    ensures Dispatch(cfg, a + b, ua + ub) ==
      if Completes(cfg, a, ua) then Dispatch(cfg, a, ua) + Dispatch(cfg, b, ub) else Dispatch(cfg, a, ua)
  {
    if a == [] {
      assert a + b == b && ua + ub == ub;
    } else {
      assert (a + b)[0] == a[0] && (ua + ub)[0] == ua[0];
      assert (a + b)[1..] == a[1..] + b && (ua + ub)[1..] == ua[1..] + ub;
      DispatchAppend(cfg, a[1..], b, ua[1..], ub);
      CompletesTail(cfg, a, ua);
    }
  }

  /** The replies of a batch whose last event stops handling are those of the events before it. */
  lemma AbortLastReplies(cfg: Config, events: seq<Event>, ups: seq<Upstream>, e: Event, u: Upstream)
    requires |ups| == |events|
    requires EventStep(cfg, e, u).abort
    ensures Replies(Dispatch(cfg, events + [e], ups + [u])) == Replies(Dispatch(cfg, events, ups))
  {
    DispatchAppend(cfg, events, [e], ups, [u]);
    if Completes(cfg, events, ups) {
      var s := EventStep(cfg, e, u);
      AbortOnlyOnTokenFailure(cfg, e, u);
      assert Dispatch(cfg, [e], [u]) == s.effects;
      assert Replies(s.effects) == [];
      RepliesAppend(Dispatch(cfg, events, ups), s.effects);
    }
  }

  /** A failed token request ends the batch: nothing after that event has any effect. */
  lemma AbortEndsBatch(cfg: Config, events: seq<Event>, ups: seq<Upstream>, i: nat)
    requires |ups| == |events| && i < |events|
    requires EventStep(cfg, events[i], ups[i]).abort
    ensures Dispatch(cfg, events, ups) == Dispatch(cfg, events[..i + 1], ups[..i + 1])
    ensures Replies(Dispatch(cfg, events, ups)) == Replies(Dispatch(cfg, events[..i], ups[..i]))
  {
    var pre, upre := events[..i + 1], ups[..i + 1];
    assert events == pre + events[i + 1..];
    assert ups == upre + ups[i + 1..];
    assert !Completes(cfg, pre, upre) by {
      assert pre[i] == events[i] && upre[i] == ups[i];
    }
    DispatchAppend(cfg, pre, events[i + 1..], upre, ups[i + 1..]);
    assert pre == events[..i] + [events[i]];
    assert upre == ups[..i] + [ups[i]];
    AbortLastReplies(cfg, events[..i], ups[..i], events[i], ups[i]);
  }

  /** A silent event anywhere in the batch changes nothing, and handling goes on past it. */
  lemma SilentEventTransparent(cfg: Config, a: seq<Event>, e: Event, b: seq<Event>,
                               ua: seq<Upstream>, u: Upstream, ub: seq<Upstream>)
    requires |ua| == |a| && |ub| == |b|
    requires Silent(e)
    ensures Dispatch(cfg, a + [e] + b, ua + [u] + ub) == Dispatch(cfg, a + b, ua + ub)
  {
    SilentEventStep(cfg, e, u);
    assert Dispatch(cfg, [e] + b, [u] + ub) == Dispatch(cfg, b, ub) by {
      assert ([e] + b)[1..] == b && ([u] + ub)[1..] == ub;
    }
    assert a + [e] + b == a + ([e] + b) && ua + [u] + ub == ua + ([u] + ub);
    DispatchAppend(cfg, a, [e] + b, ua, [u] + ub);
    DispatchAppend(cfg, a, b, ua, ub);
  }

  /** Whether a reply send succeeds never changes what the handler does next. */
  lemma {:induction false} ReplyOutcomeIgnored(cfg: Config, events: seq<Event>, ups: seq<Upstream>, ups': seq<Upstream>)
    requires |ups| == |events| && |ups'| == |events|
    requires forall i :: 0 <= i < |events| ==>
      ups[i].linkToken == ups'[i].linkToken && ups[i].unlinkOk == ups'[i].unlinkOk
    ensures Dispatch(cfg, events, ups) == Dispatch(cfg, events, ups')
  {
    if events != [] {
      assert EventStep(cfg, events[0], ups[0]) == EventStep(cfg, events[0], ups'[0]);
      forall i | 0 <= i < |events| - 1
        ensures ups[1..][i].linkToken == ups'[1..][i].linkToken && ups[1..][i].unlinkOk == ups'[1..][i].unlinkOk
      {
        assert ups[1..][i] == ups[i + 1] && ups'[1..][i] == ups'[i + 1];
      }
      ReplyOutcomeIgnored(cfg, events[1..], ups[1..], ups'[1..]);
    }
  }

  /**
   * `idx` places each reply of `rs` on an event of the batch: reply k is on the
   * reply token of event idx[k], which is an event that carries one, and the
   * events are taken in strictly increasing batch order.
   */
  ghost predicate OnTokens(rs: seq<ReplyRequest>, events: seq<Event>, idx: seq<nat>)
  {
    && |idx| == |rs|
    && (forall k :: 0 <= k < |idx| ==>
          idx[k] < |events| && !events[idx[k]].OtherEvent? && rs[k].replyToken == events[idx[k]].replyToken)
    && (forall k, l :: 0 <= k < l < |idx| ==> idx[k] < idx[l])
  }

  /** The indices of a tail, moved one place on, behind `head` (empty, or the first event). */
  function ShiftIndices(head: seq<nat>, idx: seq<nat>): (r: seq<nat>)
    ensures |r| == |head| + |idx|
  {
    head + seq(|idx|, k requires 0 <= k < |idx| => idx[k] + 1)
  }

  /** Replies of the first event followed by those of the tail stay on their own events, in order. */
  lemma OnTokensCons(r0: seq<ReplyRequest>, rs: seq<ReplyRequest>, e: Event, tail: seq<Event>, idx: seq<nat>)
    requires |r0| <= 1
    requires forall k :: 0 <= k < |r0| ==> !e.OtherEvent? && r0[k].replyToken == e.replyToken
    requires OnTokens(rs, tail, idx)
    ensures OnTokens(r0 + rs, [e] + tail, ShiftIndices(if r0 == [] then [] else [0], idx))
  {
    var events, head := [e] + tail, if r0 == [] then [] else [0];
    var r := ShiftIndices(head, idx);
    forall k | 0 <= k < |r|
      ensures r[k] < |events| && !events[r[k]].OtherEvent? && (r0 + rs)[k].replyToken == events[r[k]].replyToken
    {
      if k < |head| {
        assert k == 0 && r[0] == 0 && events[0] == e;
        assert (r0 + rs)[0] == r0[0];
      } else {
        assert r[k] == idx[k - |head|] + 1;
        assert events[r[k]] == tail[idx[k - |head|]];
        assert (r0 + rs)[k] == rs[k - |head|];
      }
    }
  }

  /**
   * In every batch, whether it runs to the end or stops early, the replies come
   * out in batch order, each on the reply token of its own event.
   */
  lemma {:induction false} RepliesInBatchOrder(cfg: Config, events: seq<Event>, ups: seq<Upstream>)
    requires |ups| == |events|
    ensures exists idx :: OnTokens(Replies(Dispatch(cfg, events, ups)), events, idx)
  {
    if events == [] {
      assert Replies(Dispatch(cfg, events, ups)) == [];
      assert OnTokens(Replies(Dispatch(cfg, events, ups)), events, []);
    } else {
      var s := EventStep(cfg, events[0], ups[0]);
      StepReplies(cfg, events[0], ups[0]);
      var r0 := Replies(s.effects);
      if s.abort {
        AbortOnlyOnTokenFailure(cfg, events[0], ups[0]);
        assert Replies(Dispatch(cfg, events, ups)) == [];
        assert OnTokens(Replies(Dispatch(cfg, events, ups)), events, []);
      } else {
        var tail := Dispatch(cfg, events[1..], ups[1..]);
        RepliesInBatchOrder(cfg, events[1..], ups[1..]);
        var idx :| OnTokens(Replies(tail), events[1..], idx);
        RepliesAppend(s.effects, tail);
        OnTokensCons(r0, Replies(tail), events[0], events[1..], idx);
        assert [events[0]] + events[1..] == events;
        assert Replies(Dispatch(cfg, events, ups)) == r0 + Replies(tail);
        assert OnTokens(Replies(Dispatch(cfg, events, ups)), events,
                        ShiftIndices(if r0 == [] then [] else [0], idx));
      }
    }
  }

  /**
   * A batch of text messages that runs to the end gets one reply per event, in
   * batch order, each on the reply token of its own event.
   */
  lemma {:induction false} TextBatchRepliesInOrder(cfg: Config, events: seq<Event>, ups: seq<Upstream>)
    requires |ups| == |events|
    requires forall i :: 0 <= i < |events| ==> events[i].MessageEvent? && events[i].message.TextMessageContent?
    requires Completes(cfg, events, ups)
    ensures var rs := Replies(Dispatch(cfg, events, ups));
      |rs| == |events| && forall i :: 0 <= i < |events| ==> rs[i].replyToken == events[i].replyToken
  {
    if events != [] {
      var s := EventStep(cfg, events[0], ups[0]);
      assert !s.abort;
      StepReplies(cfg, events[0], ups[0]);
      assert Completes(cfg, events[1..], ups[1..]) by {
        forall i | 0 <= i < |events| - 1 ensures !EventStep(cfg, events[1..][i], ups[1..][i]).abort {
          assert events[1..][i] == events[i + 1] && ups[1..][i] == ups[i + 1];
        }
      }
      forall i | 0 <= i < |events| - 1 ensures IsTextEvent(events[1..][i]) {
        assert events[1..][i] == events[i + 1];
      }
      TextBatchRepliesInOrder(cfg, events[1..], ups[1..]);
      RepliesAppend(s.effects, Dispatch(cfg, events[1..], ups[1..]));
      var rs := Replies(Dispatch(cfg, events, ups));
      forall i | 0 <= i < |events| ensures rs[i].replyToken == events[i].replyToken {
        if i > 0 { assert events[1..][i - 1] == events[i]; }
      }
    }
  }

  /**
   * The unlink trigger twice from the same source: two unlink requests and two
   * replies, each reporting the outcome of its own request.
   */
  lemma UnlinkTwice(cfg: Config, source: Source, t1: string, t2: string, u1: Upstream, u2: Upstream)
    ensures var e1 := MessageEvent(source, t1, TextMessageContent(UnlinkTrigger));
            var e2 := MessageEvent(source, t2, TextMessageContent(UnlinkTrigger));
      Dispatch(cfg, [e1, e2], [u1, u2]) ==
        [RequestUnlink(ExtractUserId(source).userId),
         Reply(TextReply(t1, if u1.unlinkOk then UnlinkDone else UnlinkFailed)),
         RequestUnlink(ExtractUserId(source).userId),
         Reply(TextReply(t2, if u2.unlinkOk then UnlinkDone else UnlinkFailed))]
  {
    var e1 := MessageEvent(source, t1, TextMessageContent(UnlinkTrigger));
    var e2 := MessageEvent(source, t2, TextMessageContent(UnlinkTrigger));
    assert [e1, e2][1..] == [e2] && [u1, u2][1..] == [u2];
    assert [e2][1..] == [] && [u2][1..] == [];
    var s1, s2 := EventStep(cfg, e1, u1), EventStep(cfg, e2, u2);
    assert Dispatch(cfg, [e2], [u2]) == s2.effects + [];
    assert Dispatch(cfg, [e1, e2], [u1, u2]) == s1.effects + s2.effects;
  }

  /**
   * One delivery carrying the link trigger from a user, with a valid signature
   * and an issued token: one token request, one reply with the login URL, 200.
   */
  lemma LinkScenario()
    ensures Handle(Config("https://example.com/login"),
                   Parsed([MessageEvent(UserSource("U1"), "reply-1", TextMessageContent("連携する"))]),
                   [Upstream(Some("tok"), false, true)])
         == Response(200, [RequestLinkToken("U1"),
                           Reply(ReplyRequest("reply-1", [TemplateMessage("Buttons template",
                             ButtonsTemplate("アカウント連携開始", "連携を開始します。リンク先でログイン\nを行なってください。",
                               [UriAction("連携開始", "https://example.com/login?linkToken=tok")]))]))])
  {
    var events := [MessageEvent(UserSource("U1"), "reply-1", TextMessageContent("連携する"))];
    assert events[1..] == [];
    assert LoginUrl(Config("https://example.com/login"), "tok") == "https://example.com/login?linkToken=tok";
  }

  /**
   * A failed token request for the first of two events: the status is still
   * 200 and the second event gets no reply.
   */
  lemma AbortScenario()
    ensures Handle(Config("https://example.com/login"),
                   Parsed([MessageEvent(UserSource("U1"), "reply-1", TextMessageContent("連携する")),
                           MessageEvent(UserSource("U2"), "reply-2", TextMessageContent("hello"))]),
                   [Upstream(None, false, true), Upstream(None, false, true)])
         == Response(200, [RequestLinkToken("U1")])
  {
  }
}
