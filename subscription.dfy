/** Startup of bot.py: the subscription request body (`subscribe`) and the
    `__main__` loop over the lines of the user list. The platform's user
    lookup is the parameter `lookup`; every outbound API request is
    recorded as an `ApiCall`, in the order it is issued. */
module Subscription {
  import opened Base
  import opened Json
  import Text
  import Settings

  /** What `get_user_id` returns for a login: the first matching user's id
      and display name. */
  datatype TwitchUser = TwitchUser(id: string, displayName: string)

  /** The user lookup; None when `get_user_id` raises (no such user, so
      `data[0]` fails, or an error response without "data"). */
  type UserLookup = string -> Option<TwitchUser>

  datatype ApiCall =
    | GetUser(login: string)          // GET /helix/users?login=...
    | CreateSubscription(body: Value) // POST /helix/eventsub/subscriptions

  /** The JSON body `subscribe(user_id)` posts. */
  function RequestBody(userId: string): (body: Value)
    ensures body.Object? && body.fields.Keys == {"type", "version", "condition", "transport"}
    ensures Path(body, ["type"]) == Ok(Str("stream.online"))
    ensures Path(body, ["version"]) == Ok(Str("1"))
    ensures Path(body, ["condition", "broadcaster_user_id"]) == Ok(Str(userId))
    ensures body.fields["condition"].Object? && body.fields["condition"].fields.Keys == {"broadcaster_user_id"}
    ensures Path(body, ["transport", "method"]) == Ok(Str("webhook"))
    ensures Path(body, ["transport", "callback"]) == Ok(Str(Settings.CallbackUrl))
    ensures Path(body, ["transport", "secret"]) == Ok(Str(Settings.Secret))
    ensures body.fields["transport"].Object? && body.fields["transport"].fields.Keys == {"method", "callback", "secret"}
  {
    var condition := Object(map["broadcaster_user_id" := Str(userId)]);
    var transport := Object(map["method" := Str("webhook"),
                                "callback" := Str(Settings.CallbackUrl),
                                "secret" := Str(Settings.Secret)]);
    var body := Object(map["type" := Str("stream.online"), "version" := Str("1"),
                           "condition" := condition, "transport" := transport]);
    PathTwo(body, "condition", "broadcaster_user_id");
    PathTwo(body, "transport", "method");
    PathTwo(body, "transport", "callback");
    PathTwo(body, "transport", "secret");
    body
  }

  /** Different broadcasters get different subscription requests. */
  lemma RequestBodyInjective(id1: string, id2: string)
    requires RequestBody(id1) == RequestBody(id2)
    ensures id1 == id2
  {
  }

  /** The logins the loop acts on: each line stripped, blank ones dropped,
      in file order. */
  function Logins(lines: seq<string>): seq<string>
  {
    if lines == [] then []
    else
      var login := Text.Strip(lines[|lines| - 1]);
      Logins(lines[..|lines| - 1]) + (if login == [] then [] else [login])
  }

  /** The positions, in the file, of the lines that are not blank. */
  function NonBlank(lines: seq<string>): (idx: seq<nat>)
    ensures forall k :: 0 <= k < |idx| ==> idx[k] < |lines|
    ensures forall k, l :: 0 <= k < l < |idx| ==> idx[k] < idx[l]
    ensures forall j :: 0 <= j < |lines| ==> (j in idx <==> Text.Strip(lines[j]) != [])
  {
    if lines == [] then []
    else
      var n := |lines| - 1;
      var prev := NonBlank(lines[..n]);
      assert forall j :: 0 <= j < n ==> lines[..n][j] == lines[j];
      prev + (if Text.Strip(lines[n]) == [] then [] else [n])
  }

  /** The k-th login comes from the k-th non-blank line. */
  lemma {:induction false} LoginsAt(lines: seq<string>)
    ensures |Logins(lines)| == |NonBlank(lines)|
    ensures forall k :: 0 <= k < |Logins(lines)| ==> Logins(lines)[k] == Text.Strip(lines[NonBlank(lines)[k]])
  {
    if lines != [] {
      var n := |lines| - 1;
      var init := lines[..n];
      LoginsAt(init);
      var prev, prevIdx := Logins(init), NonBlank(init);
      forall k | 0 <= k < |prev| ensures Logins(lines)[k] == Text.Strip(lines[NonBlank(lines)[k]]) {
        assert Logins(lines)[k] == prev[k];
        assert NonBlank(lines)[k] == prevIdx[k];
        assert init[prevIdx[k]] == lines[prevIdx[k]];
      }
    }
  }

  /** One more line adds its stripped login, unless it is blank. */
  lemma LoginsSnoc(lines: seq<string>, i: nat)
    requires i < |lines|
    ensures Logins(lines[..i + 1]) ==
              Logins(lines[..i]) + (if Text.Strip(lines[i]) == [] then [] else [Text.Strip(lines[i])])
  {
    assert lines[..i + 1][..i] == lines[..i];
  }

  /** The loop's work splits over a split of the file. */
  lemma {:induction false} LoginsAppend(a: seq<string>, b: seq<string>)
    ensures Logins(a + b) == Logins(a) + Logins(b)
    decreases |b|
  {
    if b != [] {
      var n := |b| - 1;
      assert (a + b)[..|a + b| - 1] == a + b[..n];
      assert (a + b)[|a + b| - 1] == b[n];
      var login := Text.Strip(b[n]);
      var step := if login == [] then [] else [login];
      assert Logins(a + b) == Logins(a + b[..n]) + step;
      assert Logins(b) == Logins(b[..n]) + step;
      LoginsAppend(a, b[..n]);
      assert Logins(a) + Logins(b[..n]) + step == Logins(a) + (Logins(b[..n]) + step);
    } else {
      assert a + b == a;
    }
  }

  /** What the startup loop has issued, and whether it ran to completion
      (false when a lookup raised and ended the program). */
  datatype Run = Run(calls: seq<ApiCall>, completed: bool)

  /** The calls issued for a list of logins: look each up, then subscribe
      to it; a failed lookup ends the run. */
  function StartupRun(logins: seq<string>, lookup: UserLookup): Run
  {
    if logins == [] then Run([], true)
    else
      var prev := StartupRun(logins[..|logins| - 1], lookup);
      var login := logins[|logins| - 1];
      if !prev.completed then prev
      else match lookup(login)
        case None => Run(prev.calls + [GetUser(login)], false)
        case Some(user) => Run(prev.calls + [GetUser(login), CreateSubscription(RequestBody(user.id))], true)
  }

  /** One more login is looked up and, when found, subscribed to. */
  lemma StartupRunSnoc(logins: seq<string>, login: string, lookup: UserLookup)
    requires StartupRun(logins, lookup).completed
    ensures StartupRun(logins + [login], lookup) ==
              var prev := StartupRun(logins, lookup).calls;
              match lookup(login)
              case None => Run(prev + [GetUser(login)], false)
              case Some(user) => Run(prev + [GetUser(login), CreateSubscription(RequestBody(user.id))], true)
  {
  }

  /** Once a lookup has failed, later logins change nothing. */
  lemma {:induction false} StoppedRunStaysStopped(a: seq<string>, b: seq<string>, lookup: UserLookup)
    requires !StartupRun(a, lookup).completed
    ensures StartupRun(a + b, lookup) == StartupRun(a, lookup)
    decreases |b|
  {
    if b != [] {
      var n := |b| - 1;
      assert (a + b)[..|a + b| - 1] == a + b[..n];
      StoppedRunStaysStopped(a, b[..n], lookup);
    } else {
      assert a + b == a;
    }
  }

  /** The first m logins were each looked up and then subscribed, in order,
      taking up the first 2m calls. */
  predicate SubscribedInOrder(calls: seq<ApiCall>, logins: seq<string>, lookup: UserLookup, m: nat)
  {
    && m <= |logins| && 2 * m <= |calls|
    && forall k :: 0 <= k < m ==>
         && lookup(logins[k]).Some?
         && calls[2 * k] == GetUser(logins[k])
         && calls[2 * k + 1] == CreateSubscription(RequestBody(lookup(logins[k]).value.id))
  }

  /** When every lookup succeeds, each login is looked up and subscribed
      exactly once, in order, and nothing else is issued. */
  lemma {:induction false} StartupRunAllResolved(logins: seq<string>, lookup: UserLookup)
    requires forall k :: 0 <= k < |logins| ==> lookup(logins[k]).Some?
    ensures StartupRun(logins, lookup).completed
    ensures |StartupRun(logins, lookup).calls| == 2 * |logins|
    ensures SubscribedInOrder(StartupRun(logins, lookup).calls, logins, lookup, |logins|)
  {
    if logins != [] {
      var n := |logins| - 1;
      var init := logins[..n];
      assert forall k :: 0 <= k < n ==> init[k] == logins[k];
      StartupRunAllResolved(init, lookup);
    }
  }

  /** The pairs issued for a prefix of the logins are the pairs of the
      whole list, and stay so when more calls follow. */
  lemma SubscribedInOrderExtends(calls: seq<ApiCall>, more: seq<ApiCall>, logins: seq<string>,
                                 lookup: UserLookup, m: nat)
    requires m <= |logins| && SubscribedInOrder(calls, logins[..m], lookup, m)
    ensures SubscribedInOrder(calls + more, logins, lookup, m)
  {
  }

  /** When the lookup of login m is the first to fail, the run issues the
      pairs for logins 0..m-1, then that one lookup, and stops. */
  lemma StartupRunStopsAtFirstFailure(logins: seq<string>, lookup: UserLookup, m: nat)
    requires m < |logins|
    requires forall k :: 0 <= k < m ==> lookup(logins[k]).Some?
    requires lookup(logins[m]).None?
    ensures !StartupRun(logins, lookup).completed
    ensures |StartupRun(logins, lookup).calls| == 2 * m + 1
    ensures SubscribedInOrder(StartupRun(logins, lookup).calls, logins, lookup, m)
    ensures StartupRun(logins, lookup).calls[2 * m] == GetUser(logins[m])
  {
    var init := logins[..m];
    forall k | 0 <= k < m ensures lookup(init[k]).Some? {
      assert init[k] == logins[k];
    }
    StartupRunAllResolved(init, lookup);
    var upTo := logins[..m + 1];
    assert upTo == init + [logins[m]];
    StartupRunSnoc(init, logins[m], lookup);
    var calls := StartupRun(init, lookup).calls;
    assert StartupRun(upTo, lookup) == Run(calls + [GetUser(logins[m])], false);
    SubscribedInOrderExtends(calls, [GetUser(logins[m])], logins, lookup, m);
    assert upTo + logins[m + 1..] == logins;
    StoppedRunStaysStopped(upTo, logins[m + 1..], lookup);
  }

  /** The loop as bot.py states it: for each line that is not blank once
      stripped, in file order and exactly once, it looks the login up and
      then subscribes to the id found (provided every lookup succeeds). */
  lemma StartupSubscribesEachLine(lines: seq<string>, lookup: UserLookup)
    requires forall j :: 0 <= j < |lines| && Text.Strip(lines[j]) != [] ==> lookup(Text.Strip(lines[j])).Some?
    ensures var idx := NonBlank(lines);
            var r := StartupRun(Logins(lines), lookup);
            && r.completed && |r.calls| == 2 * |idx|
            && forall k :: 0 <= k < |idx| ==>
                 var login := Text.Strip(lines[idx[k]]);
                 && r.calls[2 * k] == GetUser(login)
                 && r.calls[2 * k + 1] == CreateSubscription(RequestBody(lookup(login).value.id))
  {
    LoginsAt(lines);
    var logins := Logins(lines);
    var idx := NonBlank(lines);
    forall k | 0 <= k < |logins| ensures lookup(logins[k]).Some? {
      assert idx[k] in idx;
    }
    StartupRunAllResolved(logins, lookup);
  }

  /** A file of blank or whitespace-only lines issues no call at all. */
  lemma BlankFileIssuesNothing(lines: seq<string>, lookup: UserLookup)
    requires forall j :: 0 <= j < |lines| ==> Text.AllSpace(lines[j])
    ensures StartupRun(Logins(lines), lookup) == Run([], true)
  {
    LoginsAt(lines);
    var idx := NonBlank(lines);
    if idx != [] {
      Text.StripEmptyIffBlank(lines[idx[0]]);
      assert false;
    }
  }

  /** What one iteration of the loop adds to the run so far. */
  lemma StartupLineStep(lines: seq<string>, i: nat, lookup: UserLookup)
    requires i < |lines| && StartupRun(Logins(lines[..i]), lookup).completed
    ensures var login := Text.Strip(lines[i]);
            var prev := StartupRun(Logins(lines[..i]), lookup);
            StartupRun(Logins(lines[..i + 1]), lookup) ==
              if login == [] then prev
              else match lookup(login)
                case None => Run(prev.calls + [GetUser(login)], false)
                case Some(user) => Run(prev.calls + [GetUser(login), CreateSubscription(RequestBody(user.id))], true)
  {
    LoginsSnoc(lines, i);
    var login := Text.Strip(lines[i]);
    if login == [] {
      assert Logins(lines[..i]) + [] == Logins(lines[..i]);
    } else {
      StartupRunSnoc(Logins(lines[..i]), login, lookup);
    }
  }

  /** A run that stopped at line i is the run of the whole file. */
  lemma StartupStopsAtLine(lines: seq<string>, i: nat, lookup: UserLookup)
    requires i < |lines| && !StartupRun(Logins(lines[..i + 1]), lookup).completed
    ensures StartupRun(Logins(lines), lookup) == StartupRun(Logins(lines[..i + 1]), lookup)
  {
    assert lines[..i + 1] + lines[i + 1..] == lines;
    LoginsAppend(lines[..i + 1], lines[i + 1..]);
    StoppedRunStaysStopped(Logins(lines[..i + 1]), Logins(lines[i + 1..]), lookup);
  }

  /** The `__main__` loop: strip each line, skip blank ones, look the login
      up and subscribe to it. A failed lookup raises, which ends the loop
      and the program before the server starts. */
  method Startup(lines: seq<string>, lookup: UserLookup) returns (calls: seq<ApiCall>, completed: bool)
    ensures Run(calls, completed) == StartupRun(Logins(lines), lookup)
  {
    calls := [];
    for i := 0 to |lines|
      invariant StartupRun(Logins(lines[..i]), lookup) == Run(calls, true)
    {
      StartupLineStep(lines, i, lookup);
      var login := Text.Strip(lines[i]);
      if login == [] {
        continue;
      }
      calls := calls + [GetUser(login)];
      match lookup(login) {
        case None =>
          // get_user_id raises: the loop, and the program, stop here
          completed := false;
          StartupStopsAtLine(lines, i, lookup);
          return;
        case Some(user) =>
          calls := calls + [CreateSubscription(RequestBody(user.id))];
      }
    }
    assert lines[..|lines|] == lines;
    completed := true;
  }
}
