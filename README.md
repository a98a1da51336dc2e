# StreamerNotify relay: a verified model of its decision logic

`bot.py` relays streaming-platform "stream went live" events (EventSub
webhooks) to a Discord channel. At startup it subscribes to the event for
each login in a user list. It then serves one webhook route. That route
checks each request's HMAC signature, answers the subscription challenge,
and posts "<user> is live!" to Discord for every `stream.online` message.

This project models the parts of `bot.py` that decide something and
proves what they promise:

- `signature.dfy` (module `Signature`) models `verify_signature`:
  - the signed message is message id, then timestamp, then body, with no separators;
  - the digest is rendered in lower-case hex behind the `sha256=` prefix;
  - `hmac.compare_digest` accepts exactly when the strings are equal, and raises `TypeError` on non-ASCII input;
  - a missing header raises `KeyError`.
- `callback.dfy` (module `Callback`) models `twitch_callback`. It is a function from one request to the handler's reply (a returned value or an escaped exception) and the list of Discord posts made.
- `subscription.dfy` (module `Subscription`) models the subscription request body of `subscribe` and the `__main__` loop. The loop is a method whose loop is proved against the recursive specification `StartupRun`.
- `text.dfy` (module `Text`) models Python's `str.strip()` over the exact `str.isspace()` character set, proved to cut only whitespace and to give the unique trimmed slice.
- `json.dfy` (module `Json`) models parsed JSON values and Python's `value[key]` indexing (`KeyError` on a dict, `TypeError` on anything else).
- `base.dfy` and `settings.dfy` hold the result types and bot.py's constants (`SECRET`, `CALLBACK_URL`, `DISCORD_WEBHOOK`).

Collaborators that are not part of this model enter as parameters:

- HMAC-SHA256 is `mac: (key, message) -> digest bytes`.
- The user lookup `get_user_id` is `lookup: login -> Option<user>`. `None` means the call raised.
- Python's `str()` of a broadcaster name that is not a JSON string is `render`.
- The parsed JSON body is part of the request (`None` means `request.json()` raised).
- Outbound HTTP requests are recorded as values (`ApiCall`, `ChatPost`), not sent.

Where the code and the written design differ, the model follows the code:

- A missing signature header raises `KeyError`. The framework turns that into a server error, not "unauthorized".
- A missing message-type header raises too, but only after a signature that checks out.
- The body is parsed as JSON before the signature is checked. A body that is not JSON therefore raises even when it is unsigned.
- Every message type other than `webhook_callback_verification` is dispatched, revocations included. A revocation whose subscription type is `stream.online` posts to Discord only if its body also carries `event.broadcaster_user_name`. Otherwise `data["event"]` raises `KeyError` and nothing is posted.
- A login the platform does not know makes `get_user_id` raise. That ends the startup loop, so later lines are never subscribed.

A key point of the signature scheme is that the three parts are
concatenated without separators. We prove that changing any single part
while keeping the other two changes the message (`SignedMessageSeparatesParts`).
We also prove that the boundary between id and timestamp is not signed:
for all strings, moving characters from the end of the id to the front of
the timestamp leaves the signed message unchanged
(`SignedMessageBoundaryIsUnsigned`).

## Model

| member | source | states |
|---|---|---|
| `Text.IsSpace` | bot.py:92 | the whitespace set of Python's `str.isspace()` that `strip()` removes; what stripping with it does is stated by `Text.StripIsTrimmedSlice` and `Text.StripUnique` |
| `Text.Strip` | bot.py:92 | `login.strip()`: never longer than the line; characterized by `Text.StripIsTrimmedSlice`, `Text.StripUnique`, `Text.StripIdempotent` and `Text.StripEmptyIffBlank` |
| `Text.StripLeadingSpec` | bot.py:92 | the prefix lstrip removes is all whitespace and the rest does not start with whitespace |
| `Text.StripTrailingSpec` | bot.py:92 | the suffix rstrip removes is all whitespace and the rest does not end with whitespace |
| `Text.StripIsTrimmedSlice` | bot.py:92 | `strip()` returns a contiguous slice of the line, cut only through whitespace, whose first and last characters are not whitespace |
| `Text.StripUnique` | bot.py:92 | any slice of the line cut only through whitespace, with no whitespace left at its ends, equals `strip()` of the line |
| `Text.StripIdempotent` | bot.py:92 | stripping a stripped login changes nothing |
| `Text.StripEmptyIffBlank` | bot.py:92-93 | a stripped line is empty (and skipped by `continue`) exactly when the line is all whitespace |
| `Json.Index` | bot.py:78 | `data[key]`: the entry of a dict holding the key, KeyError for a dict without it, TypeError for any other value; used for `data["challenge"]`, whose outcome `Callback.ChallengeEchoed` states |
| `Json.Path` | bot.py:80-81 | `data[a][b]` evaluated left to right, the first failing step raising; characterized by `Json.PathTwo` |
| `Json.PathTwo` | bot.py:80-81 | `data[a][b]` succeeds exactly when `data` is a dict holding key `a` whose value is a dict holding key `b`, and then yields that entry; when `data[a]` fails, its exception is the one raised |
| `Signature.HexDigest` | bot.py:63 | `hexdigest()` renders each digest byte as two lower-case hex digits, high nibble first |
| `Signature.HexDigestInjective` | bot.py:63 | two digests with the same hex rendering are equal |
| `Signature.HexDigestIsAscii` | bot.py:63-64 | a hex digest is ASCII, so `compare_digest` never refuses the computed signature |
| `Signature.SignedMessage` | bot.py:62 | the signed message is the message id, then the timestamp, then the body, each at its own offset, with no separator |
| `Signature.SignedMessageSeparatesParts` | bot.py:62 | altering exactly one of id, timestamp or body, keeping the other two, changes the signed message |
| `Signature.SignedMessageBoundaryIsUnsigned` | bot.py:62 | for every id, x, timestamp and body, the message for (id ++ x, timestamp, body) equals the message for (id, x ++ timestamp, body) |
| `Signature.ExpectedSignature` | bot.py:63 | the expected header is `sha256=` followed by the hex digest of the message under the shared secret, and it is ASCII |
| `Signature.CompareDigest` | bot.py:64 | `compare_digest` raises TypeError exactly when an argument is not ASCII, and otherwise answers whether the two strings are equal |
| `Signature.VerifySignature` | bot.py:58-64 | a missing id, timestamp or signature header raises KeyError naming the first one missing; with all present, it raises only on a non-ASCII signature header; it accepts exactly when the signature header equals the expected signature of id ++ timestamp ++ body |
| `Signature.AcceptedSignatureShape` | bot.py:63-64 | an accepted signature header starts with `sha256=` and the rest is the hex digest of the signed message under the shared secret |
| `Signature.TamperedRequestRejected` | bot.py:58-64 | a request signed for one (id, timestamp, body) and changed so that the signed message differs is rejected, whenever the two messages' digests differ |
| `Callback.LiveMessage` | bot.py:81-83 | the Discord text is the user name, then " is live! ", then `https://twitch.tv/` followed by the user name |
| `Callback.Format` | bot.py:82-83 | the f-string text of the broadcaster name: a JSON string as it is, any other value through the abstract `str()`; `Callback.StreamOnlinePostsOnce` states the string case |
| `Callback.PostsToChat` | bot.py:69-83 | the conditions for a Discord post; `Callback.HandleCallback` proves a post happens exactly when they hold |
| `Callback.LiveMessageNamesChannel` | bot.py:81-83 | two live messages are equal only for the same user name |
| `Callback.HandleCallback` | bot.py:67-86 | at most one Discord post per request; a post happens exactly when the body parses, the signature verifies, the type header is present and not the challenge, the subscription type is `stream.online` and the event carries a broadcaster name; a post always goes to the configured webhook with the live message and the reply is `{"ok": True}`; a parsed request with a mismatching signature gets `{"status": "unauthorized"}` and no post |
| `Callback.UnparsableBodyRaises` | bot.py:69-72 | a body that is not JSON raises before the signature is checked, and nothing is posted |
| `Callback.VerifyFaultRaises` | bot.py:59-64 | a missing id, timestamp or signature header, or a non-ASCII signature, makes the handler raise that fault and post nothing |
| `Callback.MissingTypeRaises` | bot.py:72-75 | a verified request without the message-type header raises KeyError for that header and posts nothing |
| `Callback.UnverifiedIgnoresTypeAndBody` | bot.py:72-75 | when the signature does not check out, changing or removing the message-type header or changing the parsed body does not change the outcome |
| `Callback.ChallengeEchoed` | bot.py:75-78 | a verified `webhook_callback_verification` request returns exactly `data["challenge"]` (or raises its lookup error) and posts nothing, whatever the subscription type |
| `Callback.StreamOnlinePostsOnce` | bot.py:80-86 | a verified non-challenge request with subscription type `stream.online` and broadcaster name `user` posts exactly `user + " is live! https://twitch.tv/" + user` once to the webhook and returns `{"ok": True}` |
| `Callback.OtherSubscriptionIgnored` | bot.py:80-86 | a verified non-challenge request with any other subscription type returns `{"ok": True}` and posts nothing |
| `Callback.ChallengeExample` | bot.py:72-78 | a correctly signed challenge with body `{"challenge": "xyz123"}` returns `"xyz123"` and posts nothing |
| `Subscription.RequestBody` | bot.py:40-50 | the subscription body has exactly the keys type, version, condition and transport; type `stream.online`, version `1`, condition holding only `broadcaster_user_id` equal to the given id, transport holding only method `webhook`, the configured callback URL and the shared secret |
| `Subscription.RequestBodyInjective` | bot.py:44 | different broadcaster ids give different subscription bodies |
| `Subscription.Logins` | bot.py:91-93 | the logins the loop acts on; `Subscription.LoginsAt` proves the k-th is the stripped k-th non-blank line, and `Subscription.LoginsAppend` that it splits over a split of the file |
| `Subscription.StartupRun` | bot.py:94-95 | the calls issued for a list of logins; characterized by `Subscription.StartupRunAllResolved` and `Subscription.StartupRunStopsAtFirstFailure` |
| `Subscription.NonBlank` | bot.py:91-93 | the positions of the lines that are not blank after stripping: strictly increasing, in range, and containing a position exactly when that line is not blank |
| `Subscription.LoginsAt` | bot.py:91-93 | the k-th login acted on is the stripped k-th non-blank line |
| `Subscription.LoginsSnoc` | bot.py:91-93 | one more line adds its stripped text to the logins unless it is blank |
| `Subscription.LoginsAppend` | bot.py:90-93 | the logins of a file split in two are the logins of the first part followed by those of the second |
| `Subscription.StartupRunSnoc` | bot.py:94-95 | one more login issues its lookup, then its subscription when found, and otherwise stops the run |
| `Subscription.StoppedRunStaysStopped` | bot.py:94 | once a lookup has raised, no later login issues any call |
| `Subscription.SubscribedInOrderExtends` | bot.py:94-95 | the lookup/subscribe pairs issued for a prefix of the logins stay in place when more calls follow |
| `Subscription.StartupRunAllResolved` | bot.py:91-95 | when every lookup succeeds, the run completes with exactly two calls per login, the lookup of login k and then the subscription for its id, in order |
| `Subscription.StartupRunStopsAtFirstFailure` | bot.py:32-38 | when login m is the first whose lookup fails, the run issues the pairs for logins before m, then the lookup of m, and stops |
| `Subscription.StartupSubscribesEachLine` | bot.py:89-96 | for every non-blank line, in file order, the loop issues exactly one lookup of the stripped login and then one subscription for the id found, and nothing else, when all lookups succeed |
| `Subscription.BlankFileIssuesNothing` | bot.py:92-93 | a file of blank or whitespace-only lines issues no call and completes |
| `Subscription.StartupLineStep` | bot.py:91-95 | one loop iteration skips a blank line, or issues the lookup and then either the subscription or the stop |
| `Subscription.StartupStopsAtLine` | bot.py:94 | a run that stopped at a line is the run of the whole file |
| `Subscription.Startup` | bot.py:89-96 | the loop's issued calls and completion flag are exactly `StartupRun` of the file's logins |

## Left out

- HTTP and the web framework: the FastAPI app, route wiring, `uvicorn.run`, and how the framework encodes the handler's return value or turns an escaped exception into an error response. The model stops at the value returned or the exception raised. A string returned from a FastAPI route is sent JSON-encoded; that encoding is not part of this model.
- The `requests` calls: the token exchange (`get_app_token`), the user lookup (`get_user_id`), the subscription POST and the Discord POST. The lookup is the abstract `lookup` parameter. The other calls are recorded as `ApiCall` and `ChatPost` values. Network failures and their exceptions are not modelled, and neither are the responses (which bot.py ignores). `lookup` is one fixed function, so a login listed twice gets the same answer both times, whereas bot.py makes two independent network calls that can answer differently.
- HMAC-SHA256 itself: it is the abstract `mac` parameter. Tamper detection is proved only under the stated assumption that the digests of two different messages differ.
- Constant-time comparison: the timing behaviour of `hmac.compare_digest` cannot be expressed. It is modelled as equality, plus its TypeError on non-ASCII strings.
- UTF-8 decoding and encoding at bot.py:62: the body is taken as already-decoded text, and `mac` is taken to hash the encoding of its text argument. A body that is not valid UTF-8 (`UnicodeDecodeError`) is not modelled.
- JSON parsing: `request.json()` is represented only by its result; `None` means it raised.
- Header lookup: headers are a map with exact names. The case-insensitive, first-value-wins behaviour of the framework's header object is not modelled.
- Python's `str()` of a non-string broadcaster name: it is the abstract `render` parameter.
- `print` logging (bot.py:84, 96) and reading `twitch_users.txt`: the file is given as its sequence of lines.
- The display name returned by the lookup is only printed, so it has no effect in the model.
