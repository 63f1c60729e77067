/**
 * The evaluation protocol shared by every scenario.
 *
 * A scenario run is resumed twice by its host. The first resumption launches an
 * application through the backend, prepares its state and hands the host a task
 * prompt; the second, after the agent has acted, reads the application's state
 * back and hands the host one reward. A launch the backend refuses ends the run
 * at once with the reward 0.0 and no prompt.
 *
 * This module holds what the scenario modules share: the phases of a run, the
 * values a run hands out, the backend's answers as plain values, and the record
 * of what a run did (its events). It also holds the few facts about real
 * division that the reward rules of both scenario files rely on.
 */
module Protocol {

  datatype Option<+T> = None | Some(value: T) {
    /** The value, or `default` when absent: the `dict.get(key, default)` idiom. */
    function GetOr(default: T): T {
      match this
      case Some(v) => v
      case None => default
    }
  }

  /** Where a run stands. `Aborted` is a run whose setup raised an exception. */
  datatype Phase = Created | AwaitingAgent | Done | Aborted

  /** A value a run hands to its host: the task prompt, or the final reward. */
  datatype Emit<+P> = Prompt(text: P) | Reward(value: real)

  /**
   * What one resumption gives the host: a yielded value, an exception that
   * escapes the run, or the end of the run.
   */
  datatype Step<+P> = Yield(value: Emit<P>) | Raise | Stop

  /** One thing a run does, in order: send a request to a backend, or emit a value. */
  datatype Event<+Q, +P> = Sent(request: Q) | Emitted(value: Emit<P>)

  /** The body of a launch reply, when it decodes as a JSON object. */
  datatype AppInfo = AppInfo(backendPort: Option<int>)

  /**
   * The answer to the launch request: the request raised (backend unreachable,
   * timeout), or a reply with its HTTP status and its body (None when the body
   * is not a JSON object).
   */
  datatype Launch = LaunchRaised | LaunchReply(status: int, info: Option<AppInfo>)

  /** The answer to a request whose reply is ignored: all that matters is whether it raised. */
  datatype Post = Delivered | PostRaised

  /**
   * The answer to a state request: `Failed` when the request raised or its body
   * did not decode into the expected shape, otherwise the HTTP status and the body.
   */
  datatype Fetched<+T> = Failed | Fetched(status: int, body: T)

  /** How a launch ends: an exception escapes, the backend refuses, or the app runs on `port`. */
  datatype Start = Escaped | Refused | Launched(port: int)

  /**
   * The launch step every scenario begins with: any status other than 200 is a
   * refusal (checked before the body is decoded), a body that is not a JSON
   * object raises, and a missing backend port falls back to `defaultPort`.
   */
  function StartOf(launch: Launch, defaultPort: int): (s: Start)
    ensures s.Refused? <==> launch.LaunchReply? && launch.status != 200
    ensures s.Launched? <==> launch.LaunchReply? && launch.status == 200 && launch.info.Some?
    ensures s.Launched? && launch.info.value.backendPort.None? ==> s.port == defaultPort
    ensures s.Launched? && launch.info.value.backendPort.Some? ==> s.port == launch.info.value.backendPort.value
  {
    match launch
    case LaunchRaised => Escaped
    case LaunchReply(status, info) =>
      if status != 200 then Refused
      else
        match info
        case None => Escaped
        case Some(app) => Launched(app.backendPort.GetOr(defaultPort))
  }

  // ---------------------------------------------------------------------------
  // Real-arithmetic helpers of the reward rules. They are not part of the
  // protocol; they sit here because both scenario modules import this one.
  // ---------------------------------------------------------------------------

  /** `min(a, b)` on reals, as the rewards use it to cap at 1.0. */
  function Min(a: real, b: real): (m: real)
    ensures m <= a && m <= b
    ensures m == a || m == b
  {
    if a <= b then a else b
  }

  /** Comparing a ratio with 1 is comparing its two sides. */
  lemma RatioAtLeastOne(a: real, b: real)
    requires 0.0 < b
    ensures a / b >= 1.0 <==> a >= b
  {
    var q := a / b;
    assert q * b == a;
    assert (q - 1.0) * b == a - b;
    if q >= 1.0 {
      assert (q - 1.0) * b >= 0.0;
    } else {
      assert (q - 1.0) * b < 0.0;
    }
  }

  /** Dividing by a positive number keeps the order. */
  lemma RatioMonotone(a: real, c: real, b: real)
    requires 0.0 < b
    ensures a <= c ==> a / b <= c / b
  {
    assert (c / b - a / b) * b == c - a;
  }

  /** The values a run emitted, in order, read off its events. */
  function Emits<Q, P>(events: seq<Event<Q, P>>): (out: seq<Emit<P>>)
    ensures |out| <= |events|
  {
    if events == [] then []
    else
      var init := events[..|events| - 1];
      match events[|events| - 1]
      case Sent(_) => Emits(init)
      case Emitted(v) => Emits(init) + [v]
  }

  lemma {:induction false} EmitsAppend<Q, P>(a: seq<Event<Q, P>>, b: seq<Event<Q, P>>)
    ensures Emits(a + b) == Emits(a) + Emits(b)
    decreases |b|
  {
    if b == [] {
      assert a + b == a;
    } else {
      var init := b[..|b| - 1];
      assert (a + b)[..|a + b| - 1] == a + init;
      EmitsAppend(a, init);
    }
  }

  /**
   * A launched run whose setup went through, closed by one request and one
   * reward: launch, setup, prompt, request, reward, in that order, emitting
   * the prompt and then the reward.
   */
  lemma {:induction false} LaunchedThenClosed<Q, P>(launchRequest: Q, defaultPort: int, setupFor: int -> Q, prompt: P,
                                                    launch: Launch, request: Q, reward: real)
    requires StartOf(launch, defaultPort).Launched?
    ensures var events := Opening(launchRequest, defaultPort, setupFor, prompt, launch, Delivered).events
                          + [Sent(request), Emitted(Reward(reward))];
      && events == [Sent(launchRequest), Sent(setupFor(StartOf(launch, defaultPort).port)), Emitted(Prompt(prompt)),
                    Sent(request), Emitted(Reward(reward))]
      && Emits(events) == [Prompt(prompt), Reward(reward)]
  {
    var o := Opening(launchRequest, defaultPort, setupFor, prompt, launch, Delivered);
    EmitsSentThenEmitted<Q, P>(request, Reward(reward));
    EmitsAppend(o.events, [Sent(request), Emitted(Reward(reward))]);
  }

  /** A request followed by one emitted value emits just that value. */
  lemma EmitsSentThenEmitted<Q, P>(q: Q, v: Emit<P>)
    ensures Emits([Sent(q), Emitted(v)]) == [v]
  {
    var events: seq<Event<Q, P>> := [Sent(q), Emitted(v)];
    assert events[..1] == [Sent(q)];
    assert events[..1][..0] == [];
  }

  /**
   * The protocol's invariant on what a run has emitted in each phase: nothing
   * before it starts; exactly the prompt while the agent acts; after the end
   * either the lone 0.0 of a refused launch or one prompt followed by one
   * reward; nothing at all when the setup raised.
   */
  ghost predicate Consistent<P>(phase: Phase, emitted: seq<Emit<P>>) {
    match phase
    case Created => emitted == []
    case AwaitingAgent => |emitted| == 1 && emitted[0].Prompt?
    case Done => emitted == [Reward(0.0)] || (|emitted| == 2 && emitted[0].Prompt? && emitted[1].Reward?)
    case Aborted => emitted == []
  }

  /** What a finished run may have emitted, whichever way it ended. */
  ghost predicate Finished<P>(emitted: seq<Emit<P>>) {
    Consistent(Done, emitted) || Consistent(Aborted, emitted)
  }

  /** What the first resumption leaves behind: the phase, the events so far, and what the host got. */
  datatype Opened<+Q, +P> = Opened(phase: Phase, events: seq<Event<Q, P>>, step: Step<P>)

  /**
   * The first resumption, as every scenario performs it: send `launchRequest`;
   * on a refused launch emit 0.0 and end; when an exception escapes (the launch
   * request, the launch body, the setup request) end with it; otherwise send
   * the setup request for the resolved port and emit `prompt`.
   */
  function Opening<Q, P>(launchRequest: Q, defaultPort: int, setupFor: int -> Q, prompt: P,
                         launch: Launch, setup: Post): (o: Opened<Q, P>)
    ensures o.phase == AwaitingAgent <==> StartOf(launch, defaultPort).Launched? && setup == Delivered
    ensures o.phase == Done <==> StartOf(launch, defaultPort).Refused?
    ensures o.step.Raise? <==> o.phase == Aborted
    ensures !o.step.Stop?
    ensures o.step.Yield? ==> Emits(o.events) == [o.step.value]
    ensures o.phase == AwaitingAgent ==> o.step == Yield(Prompt(prompt))
    ensures Consistent(o.phase, Emits(o.events))
  {
    var launched := [Sent(launchRequest)];
    match StartOf(launch, defaultPort)
    case Escaped => Opened(Aborted, launched, Raise)
    case Refused => Opened(Done, launched + [Emitted(Reward(0.0))], Yield(Reward(0.0)))
    case Launched(port) =>
      var prepared := launched + [Sent(setupFor(port))];
      if setup.PostRaised? then Opened(Aborted, prepared, Raise)
      else Opened(AwaitingAgent, prepared + [Emitted(Prompt(prompt))], Yield(Prompt(prompt)))
  }
}
