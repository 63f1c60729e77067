/**
 * The three todo-list scenarios: complete a number of the seeded todos, create
 * a todo with an exact title, and complete a share of the seeded todos.
 *
 * Each run launches the "todo" app, seeds it (or, for creating, empties it),
 * emits a prompt, and after the agent has acted reads the list's statistics or
 * its todos back and emits a reward.
 */
module Todo {
  import opened Protocol

  const AppName: string := "todo"
  /** The backend port used when the launch reply does not name one. */
  const DefaultPort: int := 5000

  datatype Scenario =
    | CompleteTodos(expectedCount: int)
    | CreateTodo(title: string)
    | CompletionRate(targetRate: real)

  /** The scenarios that have defaults, with their parameters' default values. */
  const DefaultCompleteTodos: Scenario := CompleteTodos(3)
  const DefaultCompletionRate: Scenario := CompletionRate(0.5)

  /** The requests a todo run sends: `Reset` is the DELETE that empties the list. */
  datatype Request =
    | LaunchApp(app: string)
    | Seed(port: int)
    | Reset(port: int)
    | GetStats(port: int)
    | GetTodos(port: int)

  /** The prompt, kept abstract: the parameters it is written from. */
  datatype PromptText =
    | CompleteText(expectedCount: int)
    | CreateText(title: string)
    | RateText(targetRate: real)

  /** The list's statistics as the backend reports them; an absent count is None. */
  datatype Stats = Stats(totalItems: Option<int>, completedItems: Option<int>)

  /**
   * One entry of the todo list the backend reports: an object, whose title is
   * None when it is absent or not a string, or something that is not an object
   * (asking it for a title raises).
   */
  datatype Entry = Item(title: Option<string>) | NotObject

  /** What the backend answers, at evaluation time, to each of the two state requests. */
  datatype Observed = Observed(stats: Fetched<Stats>, todos: Fetched<seq<Entry>>)

  type Events = seq<Event<Request, PromptText>>

  // ---------------------------------------------------------------------------
  // Rewards
  // ---------------------------------------------------------------------------

  /**
   * Complete-N reward: 1.0 once `completed` reaches `expectedCount` (checked
   * first, so also for an expected count of 0 or less), otherwise the fraction
   * completed/expected for a positive expected count, otherwise 0.0.
   */
  function CompleteReward(completed: int, expectedCount: int): (r: real)
    ensures completed >= expectedCount ==> r == 1.0
    ensures 0 <= completed < expectedCount ==> 0.0 <= r < 1.0
    ensures completed < expectedCount && 0 < expectedCount ==> r * expectedCount as real == completed as real
    ensures completed < expectedCount <= 0 ==> r == 0.0
    ensures r <= 1.0
  {
    if completed >= expectedCount then 1.0
    else if expectedCount > 0 then
      RatioAtLeastOne(completed as real, expectedCount as real);
      RatioMonotone(0.0, completed as real, expectedCount as real);
      completed as real / expectedCount as real
    else 0.0
  }

  /** For a fixed expected count, completing more todos never lowers the complete-N reward. */
  lemma CompleteRewardMonotone(low: int, high: int, expectedCount: int)
    requires low <= high
    ensures CompleteReward(low, expectedCount) <= CompleteReward(high, expectedCount)
  {
    if high < expectedCount && 0 < expectedCount {
      RatioMonotone(low as real, high as real, expectedCount as real);
    }
  }

  /** Sample values of the complete-N reward. */
  lemma CompleteRewardExamples()
    ensures CompleteReward(5, 5) == 1.0
    ensures CompleteReward(0, 5) == 0.0
    ensures CompleteReward(3, 5) == 0.6
    ensures CompleteReward(0, 0) == 1.0
  {
  }

  /**
   * Completion-rate reward: 1.0 for a target rate of 0 or less, otherwise
   * rate/target capped at 1.0, where the rate is completed/total and 0 for a
   * total that is not positive.
   */
  function CompletionRateReward(completed: int, total: int, targetRate: real): (r: real)
    ensures r <= 1.0
    ensures targetRate <= 0.0 ==> r == 1.0
    ensures total <= 0 && 0.0 < targetRate ==> r == 0.0
    ensures 0 <= completed && 0.0 < targetRate ==> 0.0 <= r
    ensures 0 < total && 0.0 < targetRate ==>
      (r == 1.0 <==> completed as real / total as real >= targetRate)
    ensures 0 < total && 0.0 < targetRate && completed as real / total as real < targetRate ==>
      r * targetRate == completed as real / total as real
  {
    var rate := if total > 0 then completed as real / total as real else 0.0;
    if targetRate > 0.0 then
      RatioAtLeastOne(rate, targetRate);
      RatioMonotone(0.0, rate, targetRate);
      if total > 0 then
        RatioMonotone(0.0, completed as real, total as real);
        Min(1.0, rate / targetRate)
      else Min(1.0, rate / targetRate)
    else 1.0
  }

  /** Sample values of the completion-rate reward, and the 1.0 an empty list earns against a target of 0. */
  lemma CompletionRateRewardExamples()
    ensures CompletionRateReward(5, 10, 0.5) == 1.0
    ensures CompletionRateReward(0, 0, 0.5) == 0.0
    ensures CompletionRateReward(0, 0, 0.0) == 1.0
  {
  }

  /** No entry of `entries` is a non-object. */
  ghost predicate AllItems(entries: seq<Entry>) {
    forall i :: 0 <= i < |entries| ==> entries[i].Item?
  }

  /** Some entry has exactly the title `title` and every entry before it is an object. */
  ghost predicate MatchBeforeNonObject(todos: seq<Entry>, title: string) {
    exists i :: 0 <= i < |todos| && todos[i] == Item(Some(title)) && AllItems(todos[..i])
  }

  /**
   * `any(todo.get("title") == title for todo in todos)`: the scan stops at the
   * first match; None when it reaches a non-object first (the scan raises).
   */
  function AnyTitle(todos: seq<Entry>, title: string): (r: Option<bool>)
    ensures r == Some(true) <==> MatchBeforeNonObject(todos, title)
    ensures r == Some(false) <==> AllItems(todos) && Item(Some(title)) !in todos
  {
    if todos == [] then Some(false)
    else
      MatchBeforeNonObjectStep(todos, title);
      assert todos == [todos[0]] + todos[1..];
      match todos[0]
      case NotObject => None
      case Item(t) => if t == Some(title) then Some(true) else AnyTitle(todos[1..], title)
  }

  /** A match before any non-object is found in the first entry or, past an object, in the rest. */
  lemma MatchBeforeNonObjectStep(todos: seq<Entry>, title: string)
    requires todos != []
    ensures MatchBeforeNonObject(todos, title) <==>
      todos[0] == Item(Some(title)) || (todos[0].Item? && MatchBeforeNonObject(todos[1..], title))
    ensures AllItems(todos) <==> todos[0].Item? && AllItems(todos[1..])
  {
    assert todos[..0] == [];
    if MatchBeforeNonObject(todos, title) && todos[0] != Item(Some(title)) {
      var i :| 0 <= i < |todos| && todos[i] == Item(Some(title)) && AllItems(todos[..i]);
      assert 0 < i && todos[..i][0] == todos[0];
      assert todos[1..][i - 1] == todos[i] && todos[1..][..i - 1] == todos[..i][1..];
    }
    if todos[0].Item? && MatchBeforeNonObject(todos[1..], title) {
      var j :| 0 <= j < |todos[1..]| && todos[1..][j] == Item(Some(title)) && AllItems(todos[1..][..j]);
      assert todos[..j + 1] == [todos[0]] + todos[1..][..j];
      assert todos[j + 1] == Item(Some(title)) && AllItems(todos[..j + 1]);
    }
    if todos[0].Item? && AllItems(todos[1..]) {
      forall i | 0 <= i < |todos| ensures todos[i].Item? {
        if 0 < i { assert todos[i] == todos[1..][i - 1]; }
      }
    }
  }

  /** Create-todo reward: 1.0 when the scan finds the exact title, 0.0 when it does not or raises. */
  function CreateReward(todos: seq<Entry>, title: string): (r: real)
    ensures r == 1.0 <==> MatchBeforeNonObject(todos, title)
    ensures r == 0.0 <==> !MatchBeforeNonObject(todos, title)
  {
    if AnyTitle(todos, title) == Some(true) then 1.0 else 0.0
  }

  /** On a list of objects, the create-todo reward is 1.0 exactly when some todo has exactly the title. */
  lemma CreateRewardOnObjects(todos: seq<Entry>, title: string)
    requires AllItems(todos)
    ensures CreateReward(todos, title) == 1.0 <==> Item(Some(title)) in todos
  {
    if Item(Some(title)) in todos {
      var i :| 0 <= i < |todos| && todos[i] == Item(Some(title));
      assert AllItems(todos[..i]);
    }
  }

  /** On a list of objects, the create-todo reward does not depend on the order of the list. */
  lemma CreateRewardOrderFree(a: seq<Entry>, b: seq<Entry>, title: string)
    requires AllItems(a) && multiset(a) == multiset(b)
    ensures CreateReward(a, title) == CreateReward(b, title)
  {
    forall i | 0 <= i < |b| ensures b[i].Item? {
      assert b[i] in multiset(b);
      assert b[i] in a;
    }
    CreateRewardOnObjects(a, title);
    CreateRewardOnObjects(b, title);
    assert Item(Some(title)) in a <==> Item(Some(title)) in multiset(a);
  }

  /** An object whose title is not exactly `title` (a missing title included) changes no scan. */
  lemma {:induction false} AnyTitleSkipsOtherTitles(a: seq<Entry>, x: Entry, b: seq<Entry>, title: string)
    requires x.Item? && x.title != Some(title)
    ensures AnyTitle(a + [x] + b, title) == AnyTitle(a + b, title)
  {
    if a == [] {
      assert a + [x] + b == [x] + b;
      assert ([x] + b)[1..] == b;
      assert a + b == b;
    } else {
      assert (a + [x] + b)[0] == a[0] && (a + b)[0] == a[0];
      assert (a + [x] + b)[1..] == a[1..] + [x] + b;
      assert (a + b)[1..] == a[1..] + b;
      AnyTitleSkipsOtherTitles(a[1..], x, b, title);
    }
  }

  /** Adding or removing a todo whose title differs leaves the create-todo reward as it was. */
  lemma CreateRewardIgnoresOtherTitles(a: seq<Entry>, x: Entry, b: seq<Entry>, title: string)
    requires x.Item? && x.title != Some(title)
    ensures CreateReward(a + [x] + b, title) == CreateReward(a + b, title)
  {
    AnyTitleSkipsOtherTitles(a, x, b, title);
  }

  /** Once a non-object is in the list, order matters: it hides a match that comes after it. */
  lemma CreateRewardOrderMattersWithNonObjects(title: string)
    ensures CreateReward([Item(Some(title)), NotObject], title) == 1.0
    ensures CreateReward([NotObject, Item(Some(title))], title) == 0.0
  {
    var before := [Item(Some(title)), NotObject];
    assert before[0] == Item(Some(title)) && AllItems(before[..0]);
  }

  // ---------------------------------------------------------------------------
  // One run
  // ---------------------------------------------------------------------------

  /** The request that prepares the list once the app runs on `port`: seed, or empty it for creating. */
  function SetupRequest(s: Scenario, port: int): (r: Request)
    ensures r.Reset? <==> s.CreateTodo?
    ensures r.Seed? <==> !s.CreateTodo?
    ensures !r.LaunchApp? && r.port == port
  {
    if s.CreateTodo? then Reset(port) else Seed(port)
  }

  /** The setup request as a function of the port the launch resolves. */
  function SetupFor(s: Scenario): int -> Request {
    port => SetupRequest(s, port)
  }

  /** The request that reads the list back: its todos for creating, its statistics otherwise. */
  function EvaluationRequest(s: Scenario, port: int): (r: Request)
    ensures r.GetTodos? <==> s.CreateTodo?
    ensures r.GetStats? <==> !s.CreateTodo?
    ensures !r.LaunchApp? && r.port == port
  {
    if s.CreateTodo? then GetTodos(port) else GetStats(port)
  }

  function PromptOf(s: Scenario): PromptText {
    match s
    case CompleteTodos(expectedCount) => CompleteText(expectedCount)
    case CreateTodo(title) => CreateText(title)
    case CompletionRate(targetRate) => RateText(targetRate)
  }

  /**
   * The reward computed from what the backend answers: a failed fetch of the
   * answer the scenario reads gives 0.0; absent counts default to 0.
   */
  function Evaluate(s: Scenario, observed: Observed): (r: real)
    ensures s.CreateTodo? && observed.todos.Failed? ==> r == 0.0
    ensures !s.CreateTodo? && observed.stats.Failed? ==> r == 0.0
    ensures r <= 1.0
  {
    match s
    case CreateTodo(title) =>
      (match observed.todos
       case Failed => 0.0
       case Fetched(_, todos) => CreateReward(todos, title))
    case CompleteTodos(expectedCount) =>
      (match observed.stats
       case Failed => 0.0
       case Fetched(_, stats) => CompleteReward(stats.completedItems.GetOr(0), expectedCount))
    case CompletionRate(targetRate) =>
      (match observed.stats
       case Failed => 0.0
       case Fetched(_, stats) =>
         CompletionRateReward(stats.completedItems.GetOr(0), stats.totalItems.GetOr(0), targetRate))
  }

  /** With no negative count in the reported statistics, every todo reward lies in [0, 1]. */
  lemma EvaluateInUnitInterval(s: Scenario, observed: Observed)
    requires observed.stats.Fetched? ==> observed.stats.body.completedItems.GetOr(0) >= 0
    ensures 0.0 <= Evaluate(s, observed) <= 1.0
  {
  }

  /** Statistics with both counts absent read as zero completed of zero. */
  lemma EvaluateEmptyStats(s: Scenario, status: int, todos: Fetched<seq<Entry>>)
    requires !s.CreateTodo?
    ensures var r := Evaluate(s, Observed(Fetched(status, Stats(None, None)), todos));
      && (s.CompleteTodos? ==> r == if s.expectedCount <= 0 then 1.0 else 0.0)
      && (s.CompletionRate? ==> r == if s.targetRate <= 0.0 then 1.0 else 0.0)
  {
  }

  /** A single absent count reads as 0. */
  lemma EvaluateAbsentCountDefaults(s: Scenario, status: int, total: Option<int>, completed: Option<int>,
                                    todos: Fetched<seq<Entry>>)
    ensures Evaluate(s, Observed(Fetched(status, Stats(total, completed)), todos))
            == Evaluate(s, Observed(Fetched(status, Stats(Some(total.GetOr(0)), Some(completed.GetOr(0)))), todos))
  {
  }

  /**
   * With both counts reported, each scenario applies its rule to exactly what it
   * reads: complete-N to the completed count, completion-rate to the completed
   * count and the total, create to the fetched list.
   */
  lemma EvaluateReportedFields(s: Scenario, status: int, total: int, completed: int, todos: Fetched<seq<Entry>>)
    ensures var r := Evaluate(s, Observed(Fetched(status, Stats(Some(total), Some(completed))), todos));
      && (s.CompleteTodos? ==> r == CompleteReward(completed, s.expectedCount))
      && (s.CompletionRate? ==> r == CompletionRateReward(completed, total, s.targetRate))
      && (s.CreateTodo? && todos.Fetched? ==> r == CreateReward(todos.body, s.title))
  {
  }

  /**
   * The default scenarios on sample counts: three completed items meet the
   * default expected count, two of ten reach 0.4 of the default 0.5 rate,
   * and five of ten meet it.
   */
  lemma DefaultScenarioRewards(status: int, todos: Fetched<seq<Entry>>)
    ensures Evaluate(DefaultCompleteTodos, Observed(Fetched(status, Stats(None, Some(3))), todos)) == 1.0
    ensures Evaluate(DefaultCompleteTodos, Observed(Fetched(status, Stats(None, Some(2))), todos)) * 3.0 == 2.0
    ensures Evaluate(DefaultCompletionRate, Observed(Fetched(status, Stats(Some(10), Some(2))), todos)) == 0.4
    ensures Evaluate(DefaultCompletionRate, Observed(Fetched(status, Stats(Some(10), Some(5))), todos)) == 1.0
  {
  }

  /** The first resumption of a todo run: launch the app, seed or empty the list, emit the prompt. */
  function OpeningOf(s: Scenario, launch: Launch, setup: Post): Opened<Request, PromptText> {
    Opening(LaunchApp(AppName), DefaultPort, SetupFor(s), PromptOf(s), launch, setup)
  }

  /** The second resumption: read the list back and emit the reward. */
  function Closing(s: Scenario, port: int, observed: Observed): (c: Events)
    ensures |c| == 2 && c[0] == Sent(EvaluationRequest(s, port))
    ensures Emits(c) == [Reward(Evaluate(s, observed))]
  {
    EmitsSentThenEmitted<Request, PromptText>(EvaluationRequest(s, port), Reward(Evaluate(s, observed)));
    [Sent(EvaluationRequest(s, port)), Emitted(Reward(Evaluate(s, observed)))]
  }

  /** Everything a run does when the host resumes it until it ends. */
  function Trace(s: Scenario, launch: Launch, setup: Post, observed: Observed): (t: Events)
    ensures 1 <= |t| <= 5 && t[0] == Sent(LaunchApp(AppName))
    ensures OpeningOf(s, launch, setup).events <= t
  {
    var o := OpeningOf(s, launch, setup);
    if o.phase == AwaitingAgent then o.events + Closing(s, StartOf(launch, DefaultPort).port, observed)
    else o.events
  }

  /**
   * A refused launch emits exactly one value, 0.0, and never a prompt, and then
   * stops: no seed or reset and no read-back.
   */
  lemma RefusedLaunchEmitsZero(s: Scenario, launch: Launch, setup: Post, observed: Observed)
    requires launch.LaunchReply? && launch.status != 200
    ensures Trace(s, launch, setup, observed) == [Sent(LaunchApp(AppName)), Emitted(Reward(0.0))]
    ensures Emits(Trace(s, launch, setup, observed)) == [Reward(0.0)]
    ensures OpeningOf(s, launch, setup).step == Yield(Reward(0.0))
  {
  }

  /**
   * A launched run whose seed or reset went through: launch, seed or reset,
   * prompt, read-back, reward, in that order and nothing else.
   */
  lemma {:induction false} LaunchedRunPromptsThenRewards(s: Scenario, launch: Launch, observed: Observed)
    requires StartOf(launch, DefaultPort).Launched?
    ensures var port := StartOf(launch, DefaultPort).port;
      Trace(s, launch, Delivered, observed)
      == [Sent(LaunchApp(AppName)), Sent(SetupRequest(s, port)), Emitted(Prompt(PromptOf(s))),
          Sent(EvaluationRequest(s, port)), Emitted(Reward(Evaluate(s, observed)))]
    ensures Emits(Trace(s, launch, Delivered, observed)) == [Prompt(PromptOf(s)), Reward(Evaluate(s, observed))]
  {
    var port := StartOf(launch, DefaultPort).port;
    LaunchedThenClosed(LaunchApp(AppName), DefaultPort, SetupFor(s), PromptOf(s), launch, EvaluationRequest(s, port), Evaluate(s, observed));
  }

  /** Without a backend port in the launch reply, the run talks to port 5000. */
  lemma MissingPortDefaults(s: Scenario, observed: Observed)
    ensures var t := Trace(s, LaunchReply(200, Some(AppInfo(None))), Delivered, observed);
      |t| == 5 && t[1] == Sent(SetupRequest(s, 5000)) && t[3] == Sent(EvaluationRequest(s, 5000))
  {
    LaunchedRunPromptsThenRewards(s, LaunchReply(200, Some(AppInfo(None))), observed);
  }

  /** Every run, whatever the backend answers, keeps the protocol: nothing, the lone 0.0, or one prompt then one reward. */
  lemma {:induction false} RunFollowsProtocol(s: Scenario, launch: Launch, setup: Post, observed: Observed)
    ensures Finished(Emits(Trace(s, launch, setup, observed)))
  {
    var o := OpeningOf(s, launch, setup);
    if o.phase == AwaitingAgent {
      LaunchedRunPromptsThenRewards(s, launch, observed);
    }
  }

  /**
   * One run of a todo scenario, resumed by its host: `Begin` is the first
   * resumption (up to the prompt), `Finish` the second (the reward).
   */
  class Run {
    const scenario: Scenario
    var phase: Phase
    /** The backend port, once the launch has named it. */
    var port: int
    /** The requests sent and the values emitted so far. */
    var events: Events

    ghost predicate Valid()
      reads this
    {
      && Consistent(phase, Emits(events))
      && (phase == Created ==> events == [])
    }

    constructor (scenario: Scenario)
      ensures Valid()
      ensures this.scenario == scenario
      ensures phase == Created && events == [] && port == DefaultPort
    {
      this.scenario := scenario;
      phase := Created;
      port := DefaultPort;
      events := [];
    }

    method Begin(launch: Launch, setup: Post) returns (step: Step<PromptText>)
      requires Valid() && phase == Created
      modifies this
      ensures Valid()
      ensures var o := OpeningOf(scenario, launch, setup);
        phase == o.phase && events == o.events && step == o.step
      ensures var start := StartOf(launch, DefaultPort);
        port == if start.Launched? then start.port else old(port)
    {
      events := [Sent(LaunchApp(AppName))];
      match StartOf(launch, DefaultPort) {
        case Escaped =>
          phase, step := Aborted, Raise;
        case Refused =>
          events := events + [Emitted(Reward(0.0))];
          phase, step := Done, Yield(Reward(0.0));
        case Launched(backendPort) =>
          port := backendPort;
          events := events + [Sent(SetupRequest(scenario, port))];
          if setup.PostRaised? {
            phase, step := Aborted, Raise;
          } else {
            var prompt := Prompt(PromptOf(scenario));
            events := events + [Emitted(prompt)];
            phase, step := AwaitingAgent, Yield(prompt);
          }
      }
      ghost var o := OpeningOf(scenario, launch, setup);
      assert phase == o.phase && events == o.events;
    }

    method Finish(observed: Observed) returns (step: Step<PromptText>)
      requires Valid() && phase != Created
      modifies this
      ensures Valid() && port == old(port)
      ensures old(phase) == AwaitingAgent ==>
        && phase == Done
        && events == old(events) + Closing(scenario, port, observed)
        && step == Yield(Reward(Evaluate(scenario, observed)))
      ensures old(phase) != AwaitingAgent ==>
        phase == old(phase) && events == old(events) && step == Stop
    {
      if phase != AwaitingAgent {
        return Stop;
      }
      events := events + [Sent(EvaluationRequest(scenario, port))];
      var reward := Reward(Evaluate(scenario, observed));
      events := events + [Emitted(reward)];
      phase, step := Done, Yield(reward);
    }
  }
}
