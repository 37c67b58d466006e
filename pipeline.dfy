/**
 * What happens for each callback of the `allEvents` subscription: the
 * callback, `notifyUser` and `logError`, written as the trace of effects
 * they cause. The directory lookup and the serialiser are parameters. The
 * push provider's reply is only printed to the console, which is not
 * modelled, so a dispatch is an effect with no outcome.
 */
module Pipeline {
  import Js
  import Events

  /** A thrown or rejected value, by the text that string concatenation gives it. */
  datatype ErrorValue = ErrorValue(text: string)

  /** A user record of the directory; only its device token is read. */
  datatype User = User(firebaseToken: string)

  /** The settled `findUser` promise: a user, no user (null), or a rejection. */
  datatype Lookup = Found(user: User) | NotFound | Rejected(err: ErrorValue)

  /**
   * One invocation of the watch callback: an error, or an event. `Failed`
   * stands for a truthy `err` (events.js:28), which is what web3 passes on
   * failure; a falsy `err` counts as no error.
   */
  datatype WatchOutcome = Failed(err: ErrorValue) | Emitted(result: Events.RawEvent)

  /**
   * `logError(tag, error)`, whose line on standard error is
   * `LogLine(tag, error)`, or `gcmMesage(token, message)`.
   */
  datatype Effect = Log(tag: string, error: ErrorValue) | Dispatch(token: string, message: Events.Message)

  const SUBSCRIPTION_TAG := "allEvents"
  const UNKNOWN_ACCOUNT := "Cannot send notification to unknown Ethereum user account: "

  predicate StartsWith(text: string, prefix: string)
  {
    |prefix| <= |text| && text[..|prefix|] == prefix
  }

  predicate EndsWith(text: string, suffix: string)
  {
    |suffix| <= |text| && text[|text| - |suffix|..] == suffix
  }

  /** The error built for an account with no user; as text, an Error reads "Error: " then its message. */
  function UnknownAccountError(account: Js.Value): (e: ErrorValue)
    ensures StartsWith(e.text, "Error: " + UNKNOWN_ACCOUNT)
    ensures EndsWith(e.text, Js.ToText(account))
    ensures |e.text| == |"Error: " + UNKNOWN_ACCOUNT| + |Js.ToText(account)|
  {
    ErrorValue("Error: " + UNKNOWN_ACCOUNT + Js.ToText(account))
  }

  /** The line `logError` writes to standard error. */
  function LogLine(tag: string, err: ErrorValue): (line: string)
    ensures |line| == 10 + |tag| + 1 + |err.text| + 2
    ensures line[..10] == "Error in: " && line[10..10 + |tag|] == tag
    ensures line[10 + |tag|] == '\n'
    ensures line[11 + |tag|..|line| - 2] == err.text
    ensures line[|line| - 2..] == "\n\n"
  {
    "Error in: " + tag + "\n" + err.text + "\n\n"
  }

  /**
   * `notifyUser`: look the account up, then send to the user's token, or log
   * the missing user or the rejection under the event's name.
   */
  function NotifyUser(eventName: string, message: Events.Message, account: Js.Value, lookup: Lookup): (trace: seq<Effect>)
    ensures |trace| == 1
    ensures trace[0].Dispatch? <==> lookup.Found?
    ensures trace[0].Log? ==> trace[0].tag == eventName
    ensures lookup.Found? ==> trace[0].token == lookup.user.firebaseToken && trace[0].message == message
    ensures lookup.NotFound? ==> trace[0].error == UnknownAccountError(account)
    ensures lookup.Rejected? ==> trace[0].error == lookup.err
  {
    match lookup
    case Found(user) => [Dispatch(user.firebaseToken, message)]
    case NotFound => [Log(eventName, UnknownAccountError(account))]
    case Rejected(err) => [Log(eventName, err)]
  }

  /**
   * The watch callback: an error is logged under "allEvents"; an event is
   * translated and handed to `notifyUser`, which looks up its recipient.
   */
  function OnWatch(outcome: WatchOutcome, serialize: Events.RawEvent -> string, findUser: Js.Value -> Lookup): (trace: seq<Effect>)
    ensures |trace| == 1
  {
    match outcome
    case Failed(err) => [Log(SUBSCRIPTION_TAG, err)]
    case Emitted(ev) =>
      var d := Events.EventResultToData(ev, serialize);
      NotifyUser(d.eventName, d.message, d.toEthAccount, findUser(d.toEthAccount))
  }

  function CountLogs(trace: seq<Effect>): (n: nat)
    ensures n <= |trace|
  {
    if trace == [] then 0 else (if trace[0].Log? then 1 else 0) + CountLogs(trace[1..])
  }

  function CountDispatches(trace: seq<Effect>): (n: nat)
    ensures n + CountLogs(trace) == |trace|
  {
    if trace == [] then 0 else (if trace[0].Dispatch? then 1 else 0) + CountDispatches(trace[1..])
  }

  /** A subscription error is logged exactly once under "allEvents"; nothing is translated or sent. */
  lemma SubscriptionErrorLogsOnce(err: ErrorValue, serialize: Events.RawEvent -> string, findUser: Js.Value -> Lookup)
    ensures OnWatch(Failed(err), serialize, findUser) == [Log("allEvents", err)]
    ensures CountDispatches(OnWatch(Failed(err), serialize, findUser)) == 0
  {
  }

  /**
   * When the recipient has no user: exactly one log, under the event's name,
   * whose error ends with the unresolved account, and no dispatch.
   */
  lemma NotFoundNoDispatch(ev: Events.RawEvent, serialize: Events.RawEvent -> string, findUser: Js.Value -> Lookup)
    requires findUser(Events.Recipient(ev.args)) == NotFound
    ensures var trace := OnWatch(Emitted(ev), serialize, findUser);
      var account := Js.ToText(Events.Recipient(ev.args));
      && trace == [Log(ev.event, UnknownAccountError(Events.Recipient(ev.args)))]
      && CountDispatches(trace) == 0 && CountLogs(trace) == 1
      && EndsWith(trace[0].error.text, account)
  {
  }

  /** When the recipient is a user: exactly one dispatch, to that user's token, of the translated message unchanged. */
  lemma FoundDispatchesOnce(ev: Events.RawEvent, user: User, serialize: Events.RawEvent -> string, findUser: Js.Value -> Lookup)
    requires findUser(Events.Recipient(ev.args)) == Found(user)
    ensures var trace := OnWatch(Emitted(ev), serialize, findUser);
      && trace == [Dispatch(user.firebaseToken, Events.EventResultToData(ev, serialize).message)]
      && CountDispatches(trace) == 1 && CountLogs(trace) == 0
  {
  }

  /** When the lookup rejects: exactly one log of that error under the event's name, and no dispatch. */
  lemma RejectedLogsOnce(ev: Events.RawEvent, err: ErrorValue, serialize: Events.RawEvent -> string, findUser: Js.Value -> Lookup)
    requires findUser(Events.Recipient(ev.args)) == Rejected(err)
    ensures var trace := OnWatch(Emitted(ev), serialize, findUser);
      && trace == [Log(ev.event, err)]
      && CountDispatches(trace) == 0 && CountLogs(trace) == 1
  {
  }

  /** The terminal outcome of one callback: Delivered (handed to the provider) or Dropped (logged). */
  predicate Delivers(outcome: WatchOutcome, findUser: Js.Value -> Lookup)
  {
    outcome.Emitted? && findUser(Events.Recipient(outcome.result.args)).Found?
  }

  /** A callback dispatches exactly when it carries an event whose recipient is a user, and logs otherwise. */
  lemma DispatchIffFound(outcome: WatchOutcome, serialize: Events.RawEvent -> string, findUser: Js.Value -> Lookup)
    ensures var trace := OnWatch(outcome, serialize, findUser);
      && (CountDispatches(trace) == 1 <==> Delivers(outcome, findUser))
      && (CountLogs(trace) == 1 <==> !Delivers(outcome, findUser))
  {
  }

  /**
   * One callback of a run: what the subscription reported, and the directory
   * as it answers that callback's own lookup. Each callback looks its account
   * up anew, so two callbacks for one account may see different answers.
   */
  datatype Step = Step(outcome: WatchOutcome, findUser: Js.Value -> Lookup)

  /**
   * The subscription over a finite run of callbacks, in arrival order. An
   * error does not end it: every later callback is handled the same way.
   */
  function Run(steps: seq<Step>, serialize: Events.RawEvent -> string): (trace: seq<Effect>)
    ensures |trace| == |steps|
  {
    if |steps| == 0 then []
    else OnWatch(steps[0].outcome, serialize, steps[0].findUser) + Run(steps[1..], serialize)
  }

  /** The number of callbacks in a run that end Delivered. */
  function DeliveredCount(steps: seq<Step>): (n: nat)
    ensures n <= |steps|
  {
    if |steps| == 0 then 0
    else (if Delivers(steps[0].outcome, steps[0].findUser) then 1 else 0) + DeliveredCount(steps[1..])
  }

  /** The i-th effect of a run is the effect of the i-th callback, with the directory it saw. */
  lemma {:induction false} RunAt(steps: seq<Step>, i: nat, serialize: Events.RawEvent -> string)
    requires i < |steps|
    ensures Run(steps, serialize)[i] == OnWatch(steps[i].outcome, serialize, steps[i].findUser)[0]
  {
    if i > 0 {
      RunAt(steps[1..], i - 1, serialize);
    }
  }

  /** Callbacks are independent: a run split in two is the two runs one after the other. */
  lemma {:induction false} RunAppend(a: seq<Step>, b: seq<Step>, serialize: Events.RawEvent -> string)
    ensures Run(a + b, serialize) == Run(a, serialize) + Run(b, serialize)
  {
    if |a| == 0 {
      assert a + b == b;
    } else {
      assert (a + b)[0] == a[0];
      assert (a + b)[1..] == a[1..] + b;
      RunAppend(a[1..], b, serialize);
    }
  }

  /** Over a run, one dispatch per Delivered callback and one log per Dropped one. */
  lemma {:induction false} RunCounts(steps: seq<Step>, serialize: Events.RawEvent -> string)
    ensures CountDispatches(Run(steps, serialize)) == DeliveredCount(steps)
    ensures CountLogs(Run(steps, serialize)) == |steps| - DeliveredCount(steps)
  {
    if |steps| > 0 {
      var head := OnWatch(steps[0].outcome, serialize, steps[0].findUser);
      var tail := Run(steps[1..], serialize);
      var trace := Run(steps, serialize);
      assert trace == head + tail;
      assert trace[0] == head[0];
      assert trace[1..] == tail;
      DispatchIffFound(steps[0].outcome, serialize, steps[0].findUser);
      RunCounts(steps[1..], serialize);
    }
  }

  /**
   * The directory may change within a run: the same event seen twice, first
   * while its recipient is unknown and then after the user has registered,
   * is logged once and then dispatched once.
   */
  lemma {:induction false} DirectoryChangesWithinRun(ev: Events.RawEvent, user: User, serialize: Events.RawEvent -> string,
                                                     before: Js.Value -> Lookup, after: Js.Value -> Lookup)
    requires before(Events.Recipient(ev.args)) == NotFound
    requires after(Events.Recipient(ev.args)) == Found(user)
    ensures var trace := Run([Step(Emitted(ev), before), Step(Emitted(ev), after)], serialize);
      && trace[0] == Log(ev.event, UnknownAccountError(Events.Recipient(ev.args)))
      && trace[1] == Dispatch(user.firebaseToken, Events.EventResultToData(ev, serialize).message)
  {
    var steps := [Step(Emitted(ev), before), Step(Emitted(ev), after)];
    RunAt(steps, 0, serialize);
    RunAt(steps, 1, serialize);
  }

  /**
   * A DeleteDocument event from 0xA with an empty `to` falls back to 0xA;
   * when 0xA has no user, one log under "DeleteDocument" and no dispatch.
   */
  lemma FallbackScenario(docName: string, others: string, serialize: Events.RawEvent -> string, findUser: Js.Value -> Lookup)
    requires findUser(Js.Str("0xA")) == NotFound
    ensures var ev := Events.RawEvent("DeleteDocument", Events.Args(Js.Str("0xA"), Js.Str(""), docName), others);
      var trace := OnWatch(Emitted(ev), serialize, findUser);
      && Events.Recipient(ev.args) == Js.Str("0xA")
      && CountDispatches(trace) == 0 && CountLogs(trace) == 1
      && trace[0].tag == "DeleteDocument"
  {
  }
}
