/** The webhook route of bot.py (`twitch_callback`), as one decision per
    inbound request: what the handler returns (or raises) and which chat
    messages it posts on the way. */
module Callback {
  import opened Base
  import opened Json
  import Signature
  import Settings

  const TypeHeader: string := "Twitch-Eventsub-Message-Type"
  const ChallengeType: string := "webhook_callback_verification"
  const StreamOnline: string := "stream.online"

  /** `{"status": "unauthorized"}` */
  const UnauthorizedBody: Value := Object(map["status" := Str("unauthorized")])
  /** `{"ok": True}` */
  const OkBody: Value := Object(map["ok" := Bool(true)])

  /** One inbound request: its headers, its body as text, and the result
      of parsing the body as JSON (None when `request.json()` raises). */
  datatype Request = Request(headers: map<string, string>, body: string, json: Option<Value>)

  /** What the handler hands back to the framework: a value, or an
      exception that escaped it. */
  datatype Reply = Returned(value: Value) | Raised(fault: Fault)

  /** One POST to the chat webhook whose JSON body is `{"content": content}`. */
  datatype ChatPost = ChatPost(url: string, content: string)

  datatype Handled = Handled(reply: Reply, posts: seq<ChatPost>)

  /** Python's `str()` of a JSON value that is not a string (a number, a
      list, ...); left abstract. */
  type Render = Value -> string

  /** The text an f-string gives for a JSON value: a string as it is. */
  function Format(render: Render, v: Value): string
  {
    if v.Str? then v.s else render(v)
  }

  const LivePrefix: string := "https://twitch.tv/"

  /** `f"{user} is live! {url}"` with `url = f"https://twitch.tv/{user}"`. */
  function LiveMessage(user: string): (m: string)
    ensures |m| == 2 * |user| + |" is live! "| + |LivePrefix|
    ensures m[..|user|] == user
    ensures m[|user|..|user| + |" is live! "|] == " is live! "
    ensures m[|m| - |user| - |LivePrefix|..] == LivePrefix + user
  {
    user + " is live! " + LivePrefix + user
  }

  /** The channel name is read back from the end of a live message, so two
      live messages are equal only for the same channel. */
  lemma LiveMessageNamesChannel(u1: string, u2: string)
    requires LiveMessage(u1) == LiveMessage(u2)
    ensures u1 == u2
  {
  }

  /** The conditions under which bot.py posts to the chat webhook: the body
      parses, the signature checks out, the message-type header is present
      and is not the challenge, the subscription type is "stream.online"
      and the event carries a broadcaster name. */
  predicate PostsToChat(mac: Signature.Mac, req: Request)
  {
    && req.json.Some?
    && Signature.VerifySignature(mac, req.headers, req.body) == Ok(true)
    && TypeHeader in req.headers
    && req.headers[TypeHeader] != ChallengeType
    && Path(req.json.value, ["subscription", "type"]) == Ok(Str(StreamOnline))
    && Path(req.json.value, ["event", "broadcaster_user_name"]).Ok?
  }

  /** `twitch_callback(request)`. */
  function HandleCallback(mac: Signature.Mac, render: Render, req: Request): (r: Handled)
    // at most one chat post per request, and one exactly in the case above
    ensures |r.posts| <= 1
    ensures r.posts != [] <==> PostsToChat(mac, req)
    ensures r.posts != [] ==>
              && r.reply == Returned(OkBody)
              && r.posts[0].url == Settings.DiscordWebhook
              && r.posts[0].content ==
                   LiveMessage(Format(render, Path(req.json.value, ["event", "broadcaster_user_name"]).value))
    // a request whose signature does not match is turned away
    ensures req.json.Some? && Signature.VerifySignature(mac, req.headers, req.body) == Ok(false) ==>
              r == Handled(Returned(UnauthorizedBody), [])
  {
    match req.json
    case None => Handled(Raised(JsonDecodeError), [])
    case Some(data) =>
      match Signature.VerifySignature(mac, req.headers, req.body)
      case Err(f) => Handled(Raised(f), [])
      case Ok(verified) =>
        if !verified then Handled(Returned(UnauthorizedBody), [])
        else if TypeHeader !in req.headers then Handled(Raised(KeyError(TypeHeader)), [])
        else if req.headers[TypeHeader] == ChallengeType then
          match Index(data, "challenge")
          case Ok(challenge) => Handled(Returned(challenge), [])
          case Err(f) => Handled(Raised(f), [])
        else
          match Path(data, ["subscription", "type"])
          case Err(f) => Handled(Raised(f), [])
          case Ok(subscriptionType) =>
            if subscriptionType != Str(StreamOnline) then Handled(Returned(OkBody), [])
            else
              match Path(data, ["event", "broadcaster_user_name"])
              case Err(f) => Handled(Raised(f), [])
              case Ok(user) =>
                var name := Format(render, user);
                Handled(Returned(OkBody), [ChatPost(Settings.DiscordWebhook, LiveMessage(name))])
  }

  /** A body that is not JSON raises before the signature is even looked
      at (bot.py parses it on line 70, before checking on line 72). */
  lemma UnparsableBodyRaises(mac: Signature.Mac, render: Render, req: Request)
    requires req.json.None?
    ensures HandleCallback(mac, render, req) == Handled(Raised(JsonDecodeError), [])
  {
  }

  /** A missing id, timestamp or signature header, or a non-ASCII
      signature, raises out of `verify_signature` and posts nothing. */
  lemma VerifyFaultRaises(mac: Signature.Mac, render: Render, req: Request)
    requires req.json.Some? && Signature.VerifySignature(mac, req.headers, req.body).Err?
    ensures HandleCallback(mac, render, req) ==
              Handled(Raised(Signature.VerifySignature(mac, req.headers, req.body).fault), [])
  {
  }

  /** A verified request without the message-type header raises KeyError
      on line 75 and posts nothing. */
  lemma MissingTypeRaises(mac: Signature.Mac, render: Render, req: Request)
    requires req.json.Some? && Signature.VerifySignature(mac, req.headers, req.body) == Ok(true)
    requires TypeHeader !in req.headers
    ensures HandleCallback(mac, render, req) == Handled(Raised(KeyError(TypeHeader)), [])
  {
  }

  /** When the signature does not check out, neither the message-type
      header nor the body's contents are consulted: any other value of
      either gives the same answer. */
  lemma UnverifiedIgnoresTypeAndBody(mac: Signature.Mac, render: Render, req: Request,
                                     msgType: Option<string>, data: Value)
    requires req.json.Some?
    requires Signature.VerifySignature(mac, req.headers, req.body) != Ok(true)
    ensures var headers := match msgType
                           case None => req.headers - {TypeHeader}
                           case Some(t) => req.headers[TypeHeader := t];
            HandleCallback(mac, render, Request(headers, req.body, Some(data))) ==
            HandleCallback(mac, render, req)
  {
  }

  /** A verified challenge returns exactly the body's "challenge" value and
      posts nothing, whatever the subscription type. */
  lemma ChallengeEchoed(mac: Signature.Mac, render: Render, req: Request)
    requires req.json.Some? && Signature.VerifySignature(mac, req.headers, req.body) == Ok(true)
    requires TypeHeader in req.headers && req.headers[TypeHeader] == ChallengeType
    ensures HandleCallback(mac, render, req).posts == []
    ensures HandleCallback(mac, render, req).reply ==
              match Index(req.json.value, "challenge")
              case Ok(challenge) => Returned(challenge)
              case Err(f) => Raised(f)
  {
  }

  /** A verified notification (or revocation, or any other non-challenge
      message) about "stream.online" posts exactly one live message and
      acknowledges with `{"ok": True}`. */
  lemma StreamOnlinePostsOnce(mac: Signature.Mac, render: Render, req: Request, user: string)
    requires req.json.Some? && Signature.VerifySignature(mac, req.headers, req.body) == Ok(true)
    requires TypeHeader in req.headers && req.headers[TypeHeader] != ChallengeType
    requires Path(req.json.value, ["subscription", "type"]) == Ok(Str(StreamOnline))
    requires Path(req.json.value, ["event", "broadcaster_user_name"]) == Ok(Str(user))
    ensures HandleCallback(mac, render, req) ==
              Handled(Returned(OkBody), [ChatPost(Settings.DiscordWebhook, user + " is live! https://twitch.tv/" + user)])
  {
    assert " is live! " + LivePrefix == " is live! https://twitch.tv/";
    assert LiveMessage(user) == user + " is live! https://twitch.tv/" + user;
    assert Format(render, Str(user)) == user;
  }

  /** A verified non-challenge message about any other subscription type is
      acknowledged and posts nothing. */
  lemma OtherSubscriptionIgnored(mac: Signature.Mac, render: Render, req: Request)
    requires req.json.Some? && Signature.VerifySignature(mac, req.headers, req.body) == Ok(true)
    requires TypeHeader in req.headers && req.headers[TypeHeader] != ChallengeType
    requires Path(req.json.value, ["subscription", "type"]).Ok?
    requires Path(req.json.value, ["subscription", "type"]) != Ok(Str(StreamOnline))
    ensures HandleCallback(mac, render, req) == Handled(Returned(OkBody), [])
  {
  }

  /** The challenge example: a correctly signed challenge whose body is
      `{"challenge": "xyz123"}` is answered with "xyz123". */
  lemma ChallengeExample(mac: Signature.Mac, render: Render, id: string, ts: string, body: string)
    ensures var headers := map[Signature.MessageIdHeader := id, Signature.TimestampHeader := ts,
                               Signature.SignatureHeader := Signature.ExpectedSignature(mac, Signature.SignedMessage(id, ts, body)),
                               TypeHeader := ChallengeType];
            HandleCallback(mac, render, Request(headers, body, Some(Object(map["challenge" := Str("xyz123")])))) ==
            Handled(Returned(Str("xyz123")), [])
  {
  }
}
