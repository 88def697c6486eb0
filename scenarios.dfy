/**
 * Conversations: sequences of /start commands and messages for one chat,
 * run through the handlers in arrival order. The end-to-end scenarios of
 * the bot are stated here over Intake.Start and Intake.Receive.
 */
module Scenarios {
  import opened Wrappers
  import opened JsText
  import opened Tables
  import opened Intake

  datatype Event = StartCommand | Message(raw: Option<string>)

  function Say(text: string): Event {
    Message(Some(text))
  }

  lemma ActivityLabelTrimmed(a: ActivityLevel)
    ensures ActivityLabel(a) != "" && Trimmed(ActivityLabel(a))
  {
  }

  lemma GoalLabelTrimmed(g: Goal)
    ensures GoalLabel(g) != "" && Trimmed(GoalLabel(g))
  {
  }

  lemma MealLabelTrimmed(m: MealType)
    ensures MealLabel(m) != "" && Trimmed(MealLabel(m))
  {
  }

  /** A label reaches the switch as it is. */
  lemma LabelTrim(text: string)
    requires text != "" && Trimmed(text)
    ensures Trim(text) == text != ""
  {
    TrimKeepsTrimmed(text);
  }

  /** An answer that is not blank once trimmed. */
  predicate NonBlank(text: string) {
    Trim(text) != ""
  }

  /** An answer that, trimmed and read by Number(), passes the numeric check. */
  predicate PositiveAnswer(text: string, toNumber: string -> JsNumber) {
    NonBlank(text) && !Rejected(toNumber(Trim(text)))
  }

  /** One event: the /start handler or the 'message' handler. */
  function Apply(store: Store, chatId: int, e: Event, toNumber: string -> JsNumber): Reply {
    match e
    case StartCommand => Start(store, chatId)
    case Message(raw) => Receive(store, chatId, raw, toNumber)
  }

  /** Runs the events for `chatId` in order; the outputs are concatenated. */
  function Run(store: Store, chatId: int, events: seq<Event>, toNumber: string -> JsNumber): Reply
    decreases |events|
  {
    if events == [] then Reply(store, [])
    else
      var r := Apply(store, chatId, events[0], toNumber);
      var rest := Run(r.store, chatId, events[1..], toNumber);
      Reply(rest.store, r.out + rest.out)
  }

  /** Running `a` then `b` is running `a + b`. */
  lemma {:induction false} RunAppend(store: Store, chatId: int, a: seq<Event>, b: seq<Event>, toNumber: string -> JsNumber)
    ensures var ra := Run(store, chatId, a, toNumber);
            var rb := Run(ra.store, chatId, b, toNumber);
            Run(store, chatId, a + b, toNumber) == Reply(rb.store, ra.out + rb.out)
    decreases |a|
  {
    if a != [] {
      var r := Apply(store, chatId, a[0], toNumber);
      assert (a + b)[0] == a[0] && (a + b)[1..] == a[1..] + b;
      RunAppend(r.store, chatId, a[1..], b, toNumber);
      var ra := Run(r.store, chatId, a[1..], toNumber);
      var rb := Run(ra.store, chatId, b, toNumber);
      assert r.out + (ra.out + rb.out) == (r.out + ra.out) + rb.out;
    } else {
      assert a + b == b;
    }
  }

  /** Without /start, a chat that has no session stays silent and the store stays as it is. */
  lemma {:induction false} RunIgnoresUnknownChat(store: Store, chatId: int, events: seq<Event>, toNumber: string -> JsNumber)
    requires chatId !in store
    requires forall i :: 0 <= i < |events| ==> events[i].Message?
    ensures Run(store, chatId, events, toNumber) == Reply(store, [])
    decreases |events|
  {
    if events != [] {
      RunIgnoresUnknownChat(store, chatId, events[1..], toNumber);
    }
  }

  /** Every stored session stays well formed along any conversation. */
  lemma {:induction false} RunKeepsWellFormed(store: Store, chatId: int, events: seq<Event>, toNumber: string -> JsNumber)
    requires AllWellFormed(store)
    ensures AllWellFormed(Run(store, chatId, events, toNumber).store)
    decreases |events|
  {
    if events != [] {
      match events[0]
      case StartCommand =>
        StartKeepsWellFormed(store, chatId);
        RunKeepsWellFormed(Start(store, chatId).store, chatId, events[1..], toNumber);
      case Message(raw) =>
        ReceiveKeepsWellFormed(store, chatId, raw, toNumber);
        RunKeepsWellFormed(Receive(store, chatId, raw, toNumber).store, chatId, events[1..], toNumber);
    }
  }

  /** A conversation in one chat leaves every other chat's session as it was. */
  lemma {:induction false} RunLeavesOtherChats(store: Store, chatId: int, events: seq<Event>, toNumber: string -> JsNumber, k: int)
    requires k != chatId
    ensures var r := Run(store, chatId, events, toNumber);
            (k in r.store <==> k in store) && (k in store ==> r.store[k] == store[k])
    decreases |events|
  {
    if events != [] {
      match events[0]
      case StartCommand =>
        RunLeavesOtherChats(Start(store, chatId).store, chatId, events[1..], toNumber, k);
      case Message(raw) =>
        OtherChatsUntouched(store, chatId, raw, toNumber, k);
        RunLeavesOtherChats(Receive(store, chatId, raw, toNumber).store, chatId, events[1..], toNumber, k);
    }
  }

  /** The first event, then the rest. */
  lemma RunCons(store: Store, chatId: int, events: seq<Event>, toNumber: string -> JsNumber, first: Reply, rest: Reply)
    requires events != []
    requires Apply(store, chatId, events[0], toNumber) == first
    requires Run(first.store, chatId, events[1..], toNumber) == rest
    ensures Run(store, chatId, events, toNumber) == Reply(rest.store, first.out + rest.out)
  {
  }

  /** A message whose trimmed text is not empty, to a chat with a session, applies its step to the trimmed text. */
  lemma SayStep(store: Store, chatId: int, text: string, toNumber: string -> JsNumber, st: Step)
    requires NonBlank(text)
    requires chatId in store && Handle(store[chatId], Trim(text), toNumber) == st
    ensures Apply(store, chatId, Say(text), toNumber)
            == Reply(if st.effect.Drop? then store - {chatId} else store[chatId := st.effect.session], st.out)
  {
    ReceiveApplies(store, chatId, Some(text), toNumber, st);
  }

  /** /start as the first event. */
  lemma StartStep(store: Store, chatId: int, toNumber: string -> JsNumber)
    ensures Apply(store, chatId, StartCommand, toNumber)
            == Reply(store[chatId := Initial], [Greeting, Prompt(AwaitingConsultation)])
  {
  }

  /** One message whose trimmed text is not empty, to a chat with a session. */
  lemma RunSay(store: Store, chatId: int, text: string, toNumber: string -> JsNumber, st: Step)
    requires NonBlank(text)
    requires chatId in store && Handle(store[chatId], Trim(text), toNumber) == st
    ensures Run(store, chatId, [Say(text)], toNumber)
            == Reply(if st.effect.Drop? then store - {chatId} else store[chatId := st.effect.session], st.out)
  {
    var after := if st.effect.Drop? then store - {chatId} else store[chatId := st.effect.session];
    SayStep(store, chatId, text, toNumber, st);
    RunCons(store, chatId, [Say(text)], toNumber, Reply(after, st.out), Reply(after, []));
  }

  /** Two pieces of a conversation, one after the other. */
  lemma RunThen(store: Store, chatId: int, a: seq<Event>, b: seq<Event>, toNumber: string -> JsNumber, ra: Reply, rb: Reply)
    requires Run(store, chatId, a, toNumber) == ra
    requires Run(ra.store, chatId, b, toNumber) == rb
    ensures Run(store, chatId, a + b, toNumber) == Reply(rb.store, ra.out + rb.out)
  {
    RunAppend(store, chatId, a, b, toNumber);
  }

  /** /start and then a choice from the consultation menu. */
  lemma RunOpening(store: Store, chatId: int, choice: string, toNumber: string -> JsNumber)
    requires choice == MetricsChoice || choice == RecipesChoice
    ensures var next := if choice == MetricsChoice then AwaitingName else AwaitingRecipeType;
            Run(store, chatId, [StartCommand, Say(choice)], toNumber)
            == Reply(store[chatId := Snapshot(next, NoData)], [Greeting, Prompt(AwaitingConsultation), Prompt(next)])
  {
    var next := if choice == MetricsChoice then AwaitingName else AwaitingRecipeType;
    var s1 := store[chatId := Initial];
    var s2 := store[chatId := Snapshot(next, NoData)];
    LabelTrim(choice);
    ConsultationStep(NoData, choice, toNumber);
    RunSay(s1, chatId, choice, toNumber, Step(Keep(Snapshot(next, NoData)), [Prompt(next)]));
    assert s1[chatId := Snapshot(next, NoData)] == s2;
    StartStep(store, chatId, toNumber);
    RunCons(store, chatId, [StartCommand, Say(choice)], toNumber,
            Reply(s1, [Greeting, Prompt(AwaitingConsultation)]), Reply(s2, [Prompt(next)]));
  }

  /** A numeric answer to a chat waiting for it, accepted or not; Number() reads the trimmed text. */
  lemma RunNumber(store: Store, chatId: int, text: string, toNumber: string -> JsNumber)
    requires NonBlank(text)
    requires chatId in store
    requires store[chatId].state == AwaitingAge || store[chatId].state == AwaitingWeight || store[chatId].state == AwaitingHeight
    ensures var s := store[chatId];
            var n := toNumber(Trim(text));
            Run(store, chatId, [Say(text)], toNumber)
            == if Rejected(n) then Reply(store, [Prompt(s.state)])
               else Reply(store[chatId := Snapshot(NextAfterNumber(s.state), SetNumber(s.data, s.state, n))],
                          [Prompt(NextAfterNumber(s.state))])
  {
    var s := store[chatId];
    NumericStep(s, Trim(text), toNumber);
    AcceptedIffPositive(toNumber(Trim(text)));
    RunSay(store, chatId, text, toNumber, Handle(s, Trim(text), toNumber));
    assert store[chatId := s] == store;
  }

  /** A name, to a chat waiting for it: the trimmed text is stored. */
  lemma RunName(store: Store, chatId: int, text: string, toNumber: string -> JsNumber)
    requires NonBlank(text)
    requires chatId in store && store[chatId].state == AwaitingName
    ensures Run(store, chatId, [Say(text)], toNumber)
            == Reply(store[chatId := Snapshot(AwaitingAge, store[chatId].data.(name := Some(Trim(text))))], [Prompt(AwaitingAge)])
  {
    var s := store[chatId];
    NameStep(s.data, Trim(text), toNumber);
    RunSay(store, chatId, text, toNumber, Handle(s, Trim(text), toNumber));
  }

  /** An answer that reads as activity `a` once trimmed, to a chat waiting for it. */
  lemma RunActivity(store: Store, chatId: int, text: string, a: ActivityLevel, toNumber: string -> JsNumber)
    requires chatId in store && store[chatId].state == AwaitingActivity
    requires Trim(text) == ActivityLabel(a)
    ensures Run(store, chatId, [Say(text)], toNumber)
            == Reply(store[chatId := Snapshot(AwaitingGoal, store[chatId].data.(activityLevel := Some(a)))], [Prompt(AwaitingGoal)])
  {
    var s := store[chatId];
    ActivityLabelTrimmed(a);
    ActivityStep(s.data, Trim(text), toNumber);
    RunSay(store, chatId, text, toNumber, Handle(s, Trim(text), toNumber));
  }

  /** A goal answer, valid or not, to a chat waiting for it: the session ends either way. */
  lemma RunGoal(store: Store, chatId: int, text: string, toNumber: string -> JsNumber)
    requires NonBlank(text)
    requires chatId in store && WellFormed(store[chatId]) && store[chatId].state == AwaitingGoal
    ensures var d := store[chatId].data;
            && (forall g :: Trim(text) == GoalLabel(g) ==>
                  Run(store, chatId, [Say(text)], toNumber)
                  == Reply(store - {chatId}, [Results(d.name.value, d.age.value, d.weight.value, d.height.value,
                                                     CalorieFactor(g), StepNorm(d.activityLevel.value))]))
            && ((forall g :: Trim(text) != GoalLabel(g)) ==>
                  Run(store, chatId, [Say(text)], toNumber) == Reply(store - {chatId}, [Prompt(AwaitingGoal), StartOver]))
  {
    var s := store[chatId];
    GoalStepEndsSession(s, Trim(text), toNumber);
    RunSay(store, chatId, text, toNumber, Handle(s, Trim(text), toNumber));
  }

  // ---------------------------------------------------------------------
  // End-to-end conversations
  // ---------------------------------------------------------------------

  /** The answers to the five questions before the goal, one prefix per question. */
  function UpToName(name: string): seq<Event> {
    [Say(name)]
  }
  function UpToAge(name: string, age: string): seq<Event> {
    UpToName(name) + [Say(age)]
  }
  function UpToWeight(name: string, age: string, weight: string): seq<Event> {
    UpToAge(name, age) + [Say(weight)]
  }
  function UpToHeight(name: string, age: string, weight: string, height: string): seq<Event> {
    UpToWeight(name, age, weight) + [Say(height)]
  }
  function Answers(name: string, age: string, weight: string, height: string, activity: string): seq<Event> {
    UpToHeight(name, age, weight, height) + [Say(activity)]
  }

  /** /start, the metrics choice, then the answers. */
  function Questionnaire(name: string, age: string, weight: string, height: string, activity: string): seq<Event> {
    [StartCommand, Say(MetricsChoice)] + Answers(name, age, weight, height, activity)
  }

  /** The questions asked after the name, up to and including the goal question. */
  const AnswerPrompts: seq<Output> :=
    [Prompt(AwaitingAge), Prompt(AwaitingWeight), Prompt(AwaitingHeight), Prompt(AwaitingActivity), Prompt(AwaitingGoal)]

  /** Every prompt of a questionnaire, from the greeting to the goal question. */
  const QuestionPrompts: seq<Output> :=
    [Greeting, Prompt(AwaitingConsultation), Prompt(AwaitingName)] + AnswerPrompts

  /** How a number answer is read: trimmed, then Number(). */
  function Read(text: string, toNumber: string -> JsNumber): JsNumber {
    toNumber(Trim(text))
  }

  lemma RunUpToAge(store: Store, chatId: int, name: string, age: string, toNumber: string -> JsNumber)
    requires chatId in store && store[chatId] == Snapshot(AwaitingName, NoData)
    requires NonBlank(name) && PositiveAnswer(age, toNumber)
    ensures Run(store, chatId, UpToAge(name, age), toNumber)
            == Reply(store[chatId := Snapshot(AwaitingWeight, NoData.(name := Some(Trim(name)), age := Some(Read(age, toNumber))))],
                     AnswerPrompts[..2])
  {
    var d := NoData.(name := Some(Trim(name)));
    var s3 := store[chatId := Snapshot(AwaitingAge, d)];
    var s4 := store[chatId := Snapshot(AwaitingWeight, d.(age := Some(Read(age, toNumber))))];
    RunName(store, chatId, name, toNumber);
    RunNumber(s3, chatId, age, toNumber);
    assert s3[chatId := Snapshot(AwaitingWeight, d.(age := Some(Read(age, toNumber))))] == s4;
    assert [AnswerPrompts[0]] + [AnswerPrompts[1]] == AnswerPrompts[..2];
    RunThen(store, chatId, UpToName(name), [Say(age)], toNumber,
            Reply(s3, [Prompt(AwaitingAge)]), Reply(s4, [Prompt(AwaitingWeight)]));
  }

  lemma RunUpToWeight(store: Store, chatId: int, name: string, age: string, weight: string, toNumber: string -> JsNumber)
    requires chatId in store && store[chatId] == Snapshot(AwaitingName, NoData)
    requires NonBlank(name) && PositiveAnswer(age, toNumber) && PositiveAnswer(weight, toNumber)
    ensures Run(store, chatId, UpToWeight(name, age, weight), toNumber)
            == Reply(store[chatId := Snapshot(AwaitingHeight, NoData.(name := Some(Trim(name)), age := Some(Read(age, toNumber)),
                                                                      weight := Some(Read(weight, toNumber))))],
                     AnswerPrompts[..3])
  {
    var d := NoData.(name := Some(Trim(name)), age := Some(Read(age, toNumber)));
    var s4 := store[chatId := Snapshot(AwaitingWeight, d)];
    var s5 := store[chatId := Snapshot(AwaitingHeight, d.(weight := Some(Read(weight, toNumber))))];
    RunUpToAge(store, chatId, name, age, toNumber);
    RunNumber(s4, chatId, weight, toNumber);
    assert s4[chatId := Snapshot(AwaitingHeight, d.(weight := Some(Read(weight, toNumber))))] == s5;
    assert AnswerPrompts[..2] + [AnswerPrompts[2]] == AnswerPrompts[..3];
    RunThen(store, chatId, UpToAge(name, age), [Say(weight)], toNumber,
            Reply(s4, AnswerPrompts[..2]), Reply(s5, [Prompt(AwaitingHeight)]));
  }

  lemma RunUpToHeight(store: Store, chatId: int, name: string, age: string, weight: string, height: string,
                      toNumber: string -> JsNumber)
    requires chatId in store && store[chatId] == Snapshot(AwaitingName, NoData)
    requires NonBlank(name) && PositiveAnswer(age, toNumber) && PositiveAnswer(weight, toNumber)
    requires PositiveAnswer(height, toNumber)
    ensures Run(store, chatId, UpToHeight(name, age, weight, height), toNumber)
            == Reply(store[chatId := Snapshot(AwaitingActivity, NoData.(name := Some(Trim(name)), age := Some(Read(age, toNumber)),
                                                                        weight := Some(Read(weight, toNumber)),
                                                                        height := Some(Read(height, toNumber))))],
                     AnswerPrompts[..4])
  {
    var d := NoData.(name := Some(Trim(name)), age := Some(Read(age, toNumber)), weight := Some(Read(weight, toNumber)));
    var s5 := store[chatId := Snapshot(AwaitingHeight, d)];
    var s6 := store[chatId := Snapshot(AwaitingActivity, d.(height := Some(Read(height, toNumber))))];
    RunUpToWeight(store, chatId, name, age, weight, toNumber);
    RunNumber(s5, chatId, height, toNumber);
    assert s5[chatId := Snapshot(AwaitingActivity, d.(height := Some(Read(height, toNumber))))] == s6;
    assert AnswerPrompts[..3] + [AnswerPrompts[3]] == AnswerPrompts[..4];
    RunThen(store, chatId, UpToWeight(name, age, weight), [Say(height)], toNumber,
            Reply(s5, AnswerPrompts[..3]), Reply(s6, [Prompt(AwaitingActivity)]));
  }

  /** The data a completed questionnaire has collected, before the goal. */
  function Collected(name: string, age: string, weight: string, height: string, a: ActivityLevel,
                     toNumber: string -> JsNumber): UserData {
    UserData(Some(Trim(name)), Some(Read(age, toNumber)), Some(Read(weight, toNumber)), Some(Read(height, toNumber)),
             Some(a), None)
  }

  /** Valid answers to the five questions lead to the goal question with all five answers stored. */
  lemma AnswersReachGoal(store: Store, chatId: int, name: string, age: string, weight: string, height: string,
                         activity: string, a: ActivityLevel, toNumber: string -> JsNumber)
    requires chatId in store && store[chatId] == Snapshot(AwaitingName, NoData)
    requires NonBlank(name) && PositiveAnswer(age, toNumber) && PositiveAnswer(weight, toNumber)
    requires PositiveAnswer(height, toNumber) && Trim(activity) == ActivityLabel(a)
    ensures Run(store, chatId, Answers(name, age, weight, height, activity), toNumber)
            == Reply(store[chatId := Snapshot(AwaitingGoal, Collected(name, age, weight, height, a, toNumber))],
                     AnswerPrompts)
  {
    var d := NoData.(name := Some(Trim(name)), age := Some(Read(age, toNumber)), weight := Some(Read(weight, toNumber)),
                     height := Some(Read(height, toNumber)));
    var s6 := store[chatId := Snapshot(AwaitingActivity, d)];
    var s7 := store[chatId := Snapshot(AwaitingGoal, Collected(name, age, weight, height, a, toNumber))];
    RunUpToHeight(store, chatId, name, age, weight, height, toNumber);
    RunActivity(s6, chatId, activity, a, toNumber);
    assert s6[chatId := Snapshot(AwaitingGoal, d.(activityLevel := Some(a)))] == s7;
    assert AnswerPrompts[..4] + [AnswerPrompts[4]] == AnswerPrompts;
    RunThen(store, chatId, UpToHeight(name, age, weight, height), [Say(activity)], toNumber,
            Reply(s6, AnswerPrompts[..4]), Reply(s7, [Prompt(AwaitingGoal)]));
  }

  /** /start and the metrics choice, then any continuation from the name question. */
  lemma MetricsOpeningThen(store: Store, chatId: int, rest: seq<Event>, toNumber: string -> JsNumber, r: Reply)
    requires Run(store[chatId := Snapshot(AwaitingName, NoData)], chatId, rest, toNumber) == r
    ensures Run(store, chatId, [StartCommand, Say(MetricsChoice)] + rest, toNumber)
            == Reply(r.store, [Greeting, Prompt(AwaitingConsultation), Prompt(AwaitingName)] + r.out)
  {
    RunOpening(store, chatId, MetricsChoice, toNumber);
    RunThen(store, chatId, [StartCommand, Say(MetricsChoice)], rest, toNumber,
            Reply(store[chatId := Snapshot(AwaitingName, NoData)], [Greeting, Prompt(AwaitingConsultation), Prompt(AwaitingName)]), r);
  }

  /** /start, the metrics choice and valid answers lead to the goal question. */
  lemma QuestionnaireReachesGoal(store: Store, chatId: int, name: string, age: string, weight: string, height: string,
                                 activity: string, a: ActivityLevel, toNumber: string -> JsNumber)
    requires NonBlank(name) && PositiveAnswer(age, toNumber) && PositiveAnswer(weight, toNumber)
    requires PositiveAnswer(height, toNumber) && Trim(activity) == ActivityLabel(a)
    ensures Run(store, chatId, Questionnaire(name, age, weight, height, activity), toNumber)
            == Reply(store[chatId := Snapshot(AwaitingGoal, Collected(name, age, weight, height, a, toNumber))],
                     QuestionPrompts)
  {
    var s2 := store[chatId := Snapshot(AwaitingName, NoData)];
    var s7 := store[chatId := Snapshot(AwaitingGoal, Collected(name, age, weight, height, a, toNumber))];
    AnswersReachGoal(s2, chatId, name, age, weight, height, activity, a, toNumber);
    assert s2[chatId := Snapshot(AwaitingGoal, Collected(name, age, weight, height, a, toNumber))] == s7;
    MetricsOpeningThen(store, chatId, Answers(name, age, weight, height, activity), toNumber, Reply(s7, AnswerPrompts));
  }

  /** The summary a completed questionnaire produces. */
  function Summary(name: string, age: string, weight: string, height: string, a: ActivityLevel, g: Goal,
                   toNumber: string -> JsNumber): Output {
    Results(Trim(name), Read(age, toNumber), Read(weight, toNumber), Read(height, toNumber), CalorieFactor(g), StepNorm(a))
  }

  /** Valid answers and a goal answer: the summary is sent and the session removed. */
  lemma QuestionnaireWithGoal(store: Store, chatId: int, name: string, age: string, weight: string, height: string,
                              activity: string, a: ActivityLevel, goal: string, g: Goal, toNumber: string -> JsNumber)
    requires NonBlank(name) && PositiveAnswer(age, toNumber) && PositiveAnswer(weight, toNumber)
    requires PositiveAnswer(height, toNumber) && Trim(activity) == ActivityLabel(a) && Trim(goal) == GoalLabel(g)
    ensures Run(store, chatId, Questionnaire(name, age, weight, height, activity) + [Say(goal)], toNumber)
            == Reply(store - {chatId}, QuestionPrompts + [Summary(name, age, weight, height, a, g, toNumber)])
  {
    var s7 := store[chatId := Snapshot(AwaitingGoal, Collected(name, age, weight, height, a, toNumber))];
    QuestionnaireReachesGoal(store, chatId, name, age, weight, height, activity, a, toNumber);
    GoalLabelTrimmed(g);
    RunGoal(s7, chatId, goal, toNumber);
    assert s7 - {chatId} == store - {chatId};
    RunThen(store, chatId, Questionnaire(name, age, weight, height, activity), [Say(goal)], toNumber,
            Reply(s7, QuestionPrompts), Reply(store - {chatId}, [Summary(name, age, weight, height, a, g, toNumber)]));
  }

  /**
   * The happy path: after valid answers and a valid goal the summary is sent
   * (with the goal's calorie factor and the activity's step norm) and the
   * session is removed, so any later message in that chat is ignored.
   */
  lemma HappyPath(store: Store, chatId: int, name: string, age: string, weight: string, height: string,
                  activity: string, a: ActivityLevel, goal: string, g: Goal, toNumber: string -> JsNumber, later: seq<Event>)
    requires NonBlank(name) && PositiveAnswer(age, toNumber) && PositiveAnswer(weight, toNumber)
    requires PositiveAnswer(height, toNumber) && Trim(activity) == ActivityLabel(a) && Trim(goal) == GoalLabel(g)
    requires forall i :: 0 <= i < |later| ==> later[i].Message?
    ensures Run(store, chatId, Questionnaire(name, age, weight, height, activity) + [Say(goal)] + later, toNumber)
            == Reply(store - {chatId}, QuestionPrompts + [Summary(name, age, weight, height, a, g, toNumber)])
  {
    var done := Reply(store - {chatId}, QuestionPrompts + [Summary(name, age, weight, height, a, g, toNumber)]);
    QuestionnaireWithGoal(store, chatId, name, age, weight, height, activity, a, goal, g, toNumber);
    RunIgnoresUnknownChat(store - {chatId}, chatId, later, toNumber);
    RunThen(store, chatId, Questionnaire(name, age, weight, height, activity) + [Say(goal)], later, toNumber,
            done, Reply(store - {chatId}, []));
    assert done.out + [] == done.out;
  }

  /** The summary the worked example ends with: high activity and no goal adjustment. */
  const AnnaResults: Output := Results("Anna", Finite(30.0), Finite(70.0), Finite(170.0), 1.0, 10000)

  /**
   * The worked example, for any answer texts that read as it once trimmed
   * (such as " Anna ", "30", "70", "170", " высокий" and "просто узнать норму\n"):
   * the summary carries 10000 steps, and the formulas over its numbers give
   * 1452 kcal and 2.1 litres.
   */
  lemma AnnaExample(store: Store, chatId: int, name: string, age: string, weight: string, height: string,
                    activity: string, goal: string, toNumber: string -> JsNumber)
    requires Trim(name) == "Anna"
    requires NonBlank(age) && Read(age, toNumber) == Finite(30.0)
    requires NonBlank(weight) && Read(weight, toNumber) == Finite(70.0)
    requires NonBlank(height) && Read(height, toNumber) == Finite(170.0)
    requires Trim(activity) == ActivityLabel(High) && Trim(goal) == GoalLabel(Maintain)
    ensures var r := Run(store, chatId, Questionnaire(name, age, weight, height, activity) + [Say(goal)], toNumber);
            && r.store == store - {chatId}
            && r.out == QuestionPrompts + [AnnaResults]
            && var o := r.out[|r.out| - 1];
               && Calories(o.weight.value, o.height.value, o.age.value, o.calorieFactor) == 1452
               && WaterLitres(o.weight.value) == 2.1
               && o.steps == 10000
  {
    var q := Questionnaire(name, age, weight, height, activity) + [Say(goal)];
    HappyPath(store, chatId, name, age, weight, height, activity, High, goal, Maintain, toNumber, []);
    assert q + [] == q;
    var out := QuestionPrompts + [AnnaResults];
    assert out[|out| - 1] == AnnaResults;
    ExampleNorms();
  }

  /**
   * An answer that is not one of the goal labels does not re-ask: the
   * question is sent again, then "start over", and the session is gone.
   */
  lemma InvalidGoalEndsSession(store: Store, chatId: int, name: string, age: string, weight: string, height: string,
                               activity: string, a: ActivityLevel, text: string, toNumber: string -> JsNumber)
    requires NonBlank(name) && PositiveAnswer(age, toNumber) && PositiveAnswer(weight, toNumber)
    requires PositiveAnswer(height, toNumber) && Trim(activity) == ActivityLabel(a)
    requires NonBlank(text) && forall g :: Trim(text) != GoalLabel(g)
    ensures Run(store, chatId, Questionnaire(name, age, weight, height, activity) + [Say(text)], toNumber)
            == Reply(store - {chatId}, QuestionPrompts + [Prompt(AwaitingGoal), StartOver])
  {
    var s7 := store[chatId := Snapshot(AwaitingGoal, Collected(name, age, weight, height, a, toNumber))];
    QuestionnaireReachesGoal(store, chatId, name, age, weight, height, activity, a, toNumber);
    RunGoal(s7, chatId, text, toNumber);
    assert s7 - {chatId} == store - {chatId};
    RunThen(store, chatId, Questionnaire(name, age, weight, height, activity), [Say(text)], toNumber,
            Reply(s7, QuestionPrompts), Reply(store - {chatId}, [Prompt(AwaitingGoal), StartOver]));
  }

  /** An age that is not a positive number is asked again and nothing is stored for it. */
  lemma InvalidAgeReprompts(store: Store, chatId: int, name: string, age: string, toNumber: string -> JsNumber)
    requires chatId in store && store[chatId] == Snapshot(AwaitingName, NoData)
    requires NonBlank(name) && NonBlank(age) && Rejected(Read(age, toNumber))
    ensures Run(store, chatId, UpToAge(name, age), toNumber)
            == Reply(store[chatId := Snapshot(AwaitingAge, NoData.(name := Some(Trim(name))))],
                     [Prompt(AwaitingAge), Prompt(AwaitingAge)])
  {
    var s3 := store[chatId := Snapshot(AwaitingAge, NoData.(name := Some(Trim(name))))];
    RunName(store, chatId, name, toNumber);
    RunNumber(s3, chatId, age, toNumber);
    RunThen(store, chatId, UpToName(name), [Say(age)], toNumber,
            Reply(s3, [Prompt(AwaitingAge)]), Reply(s3, [Prompt(AwaitingAge)]));
  }

  /** A weight that is not a positive number is asked again and nothing is stored for it. */
  lemma InvalidWeightReprompts(store: Store, chatId: int, name: string, age: string, weight: string,
                               toNumber: string -> JsNumber)
    requires chatId in store && store[chatId] == Snapshot(AwaitingName, NoData)
    requires NonBlank(name) && PositiveAnswer(age, toNumber)
    requires NonBlank(weight) && Rejected(Read(weight, toNumber))
    ensures Run(store, chatId, UpToWeight(name, age, weight), toNumber)
            == Reply(store[chatId := Snapshot(AwaitingWeight, NoData.(name := Some(Trim(name)), age := Some(Read(age, toNumber))))],
                     AnswerPrompts[..2] + [Prompt(AwaitingWeight)])
  {
    var s4 := store[chatId := Snapshot(AwaitingWeight, NoData.(name := Some(Trim(name)), age := Some(Read(age, toNumber))))];
    RunUpToAge(store, chatId, name, age, toNumber);
    RunNumber(s4, chatId, weight, toNumber);
    RunThen(store, chatId, UpToAge(name, age), [Say(weight)], toNumber,
            Reply(s4, AnswerPrompts[..2]), Reply(s4, [Prompt(AwaitingWeight)]));
  }

  /** The recipe branch: an answer that reads as a meal label gets its text and the session ends. */
  lemma RecipeConversation(store: Store, chatId: int, meal: string, m: MealType, toNumber: string -> JsNumber)
    requires Trim(meal) == MealLabel(m)
    ensures Run(store, chatId, [StartCommand, Say(RecipesChoice)] + [Say(meal)], toNumber)
            == Reply(store - {chatId}, [Greeting, Prompt(AwaitingConsultation), Prompt(AwaitingRecipeType),
                                        Recipe(if m == Snack then CurdDessertRecipe else OatmealRecipe)])
  {
    var s2 := store[chatId := Snapshot(AwaitingRecipeType, NoData)];
    var text := if m == Snack then CurdDessertRecipe else OatmealRecipe;
    RunOpening(store, chatId, RecipesChoice, toNumber);
    RecipeStep(NoData, Trim(meal), toNumber);
    MealLabelTrimmed(m);
    RunSay(s2, chatId, meal, toNumber, Step(Drop, [Recipe(text)]));
    assert s2 - {chatId} == store - {chatId};
    RunThen(store, chatId, [StartCommand, Say(RecipesChoice)], [Say(meal)], toNumber,
            Reply(s2, [Greeting, Prompt(AwaitingConsultation), Prompt(AwaitingRecipeType)]),
            Reply(store - {chatId}, [Recipe(text)]));
  }
}
