/**
 * The per-chat intake state machine of the 'message' handler in
 * src/index.ts, as values: one session's state and collected data, the
 * transition one message makes, and the session store the handler updates.
 * The classes in module ChatBot perform these transitions in place and are
 * proved to agree with the functions here.
 */
module Intake {
  import opened Wrappers
  import opened JsText
  import opened Tables

  datatype BotState =
    | AwaitingConsultation
    | AwaitingName
    | AwaitingAge
    | AwaitingWeight
    | AwaitingHeight
    | AwaitingActivity
    | AwaitingGoal
    | AwaitingRecipeType
    | Completed

  /** A JavaScript number as `Number(text)` can produce it. */
  datatype JsNumber = NaN | Finite(value: real) | PositiveInfinity | NegativeInfinity

  /** The numeric guard `isNaN(n) || n <= 0`. */
  predicate Rejected(n: JsNumber) {
    match n
    case NaN => true
    case Finite(v) => v <= 0.0
    case PositiveInfinity => false
    case NegativeInfinity => true
  }

  /** A number passes the guard exactly when it is strictly positive (Infinity included). */
  lemma AcceptedIffPositive(n: JsNumber)
    ensures !Rejected(n) <==> (n.Finite? && n.value > 0.0) || n == PositiveInfinity
  {
  }

  /** UserData: every field is optional until its question has been answered. */
  datatype UserData = UserData(
    name: Option<string>,
    age: Option<JsNumber>,
    weight: Option<JsNumber>,
    height: Option<JsNumber>,
    activityLevel: Option<ActivityLevel>,
    goal: Option<Goal>)

  const NoData: UserData := UserData(None, None, None, None, None, None)

  /** The value of one session at one moment: `{state, data}`. */
  datatype Snapshot = Snapshot(state: BotState, data: UserData)

  const Initial: Snapshot := Snapshot(AwaitingConsultation, NoData)

  /** The session store `sessions`: chat id to session. */
  type Store = map<int, Snapshot>

  /** What the bot sends, with prompt wording and formatting abstracted away. */
  datatype Output =
    | Greeting                 // the hello line sent on /start
    | Prompt(question: BotState) // the question (and keyboard) for a state
    | Results(name: string, age: JsNumber, weight: JsNumber, height: JsNumber,
              calorieFactor: real, steps: int)
    | StartOver                // "something went wrong, /start again"
    | Recipe(text: string)

  /** What one message does to the chat's entry. */
  datatype Effect = Keep(session: Snapshot) | Drop

  datatype Step = Step(effect: Effect, out: seq<Output>)

  datatype Reply = Reply(store: Store, out: seq<Output>)

  // ---------------------------------------------------------------------
  // sendResults
  // ---------------------------------------------------------------------

  /** Every field sendResults needs is present (and the name is not ""). */
  predicate Complete(d: UserData) {
    && d.name.Some? && d.name.value != ""
    && d.age.Some? && d.weight.Some? && d.height.Some?
    && d.activityLevel.Some? && d.goal.Some?
  }

  /**
   * sendResults: the summary when the data is complete, the "start over"
   * message otherwise. Calorie and water arithmetic are left to Tables.
   */
  function ResultsFor(d: UserData): (o: Output)
    ensures o.StartOver? <==> !Complete(d)
    ensures o.Results? <==> Complete(d)
    ensures o.Results? ==> o.name == d.name.value && o.age == d.age.value
                           && o.weight == d.weight.value && o.height == d.height.value
                           && o.calorieFactor == CalorieFactor(d.goal.value)
                           && o.steps == StepNorm(d.activityLevel.value)
  {
    if d.name.None? || d.name.value == "" || d.age.None? || d.weight.None?
       || d.height.None? || d.activityLevel.None? || d.goal.None?
    then StartOver
    else Results(d.name.value, d.age.value, d.weight.value, d.height.value,
                 CalorieFactor(d.goal.value), StepNorm(d.activityLevel.value))
  }

  // ---------------------------------------------------------------------
  // The switch on session.state
  // ---------------------------------------------------------------------

  /**
   * One trimmed, non-empty message for a chat that has a session. A numeric
   * answer is read with `toNumber`, which stands for JavaScript's Number().
   * AwaitingGoal has no `break`: after it (valid goal or not) the Completed
   * branch sends the results and the session is deleted.
   */
  function Handle(s: Snapshot, text: string, toNumber: string -> JsNumber): Step {
    match s.state
    case AwaitingConsultation =>
      if text == MetricsChoice then Step(Keep(s.(state := AwaitingName)), [Prompt(AwaitingName)])
      else if text == RecipesChoice then Step(Keep(s.(state := AwaitingRecipeType)), [Prompt(AwaitingRecipeType)])
      else Step(Keep(s), [Prompt(AwaitingConsultation)])
    case AwaitingName =>
      Step(Keep(Snapshot(AwaitingAge, s.data.(name := Some(text)))), [Prompt(AwaitingAge)])
    case AwaitingAge =>
      var n := toNumber(text);
      if Rejected(n) then Step(Keep(s), [Prompt(AwaitingAge)])
      else Step(Keep(Snapshot(AwaitingWeight, s.data.(age := Some(n)))), [Prompt(AwaitingWeight)])
    case AwaitingWeight =>
      var n := toNumber(text);
      if Rejected(n) then Step(Keep(s), [Prompt(AwaitingWeight)])
      else Step(Keep(Snapshot(AwaitingHeight, s.data.(weight := Some(n)))), [Prompt(AwaitingHeight)])
    case AwaitingHeight =>
      var n := toNumber(text);
      if Rejected(n) then Step(Keep(s), [Prompt(AwaitingHeight)])
      else Step(Keep(Snapshot(AwaitingActivity, s.data.(height := Some(n)))), [Prompt(AwaitingActivity)])
    case AwaitingActivity =>
      var a := ParseActivity(text);
      if a.None? then Step(Keep(s), [Prompt(AwaitingActivity)])
      else Step(Keep(Snapshot(AwaitingGoal, s.data.(activityLevel := a))), [Prompt(AwaitingGoal)])
    case AwaitingGoal =>
      var g := ParseGoal(text);
      if g.Some? then Step(Drop, [ResultsFor(s.data.(goal := g))])
      else Step(Drop, [Prompt(AwaitingGoal), ResultsFor(s.data)])
    case Completed =>
      Step(Drop, [ResultsFor(s.data)])
    case AwaitingRecipeType =>
      if ParseMeal(text).Some? then Step(Drop, [Recipe(RecipeFor(text))])
      else Step(Keep(s), [Prompt(AwaitingRecipeType)])
  }

  /** `msg.text?.trim()`; a message without text reads as "". */
  function IncomingText(raw: Option<string>): string {
    if raw.Some? then Trim(raw.value) else ""
  }

  /** The whole 'message' handler over the store. */
  function Receive(store: Store, chatId: int, raw: Option<string>, toNumber: string -> JsNumber): (r: Reply)
  {
    var text := IncomingText(raw);
    if text == "" || chatId !in store then Reply(store, [])
    else
      var st := Handle(store[chatId], text, toNumber);
      match st.effect
      case Keep(s) => Reply(store[chatId := s], st.out)
      case Drop => Reply(store - {chatId}, st.out)
  }

  /** Receive, for a message that reaches the switch, applies that step's effect. */
  lemma ReceiveApplies(store: Store, chatId: int, raw: Option<string>, toNumber: string -> JsNumber, st: Step)
    requires IncomingText(raw) != "" && chatId in store
    requires Handle(store[chatId], IncomingText(raw), toNumber) == st
    ensures Receive(store, chatId, raw, toNumber)
            == Reply(if st.effect.Drop? then store - {chatId} else store[chatId := st.effect.session], st.out)
  {
  }

  /**
   * Every pass through the switch sends something, and it deletes the
   * session exactly on the goal answer, in Completed, and on a meal label.
   */
  lemma HandleEnds(s: Snapshot, text: string, toNumber: string -> JsNumber)
    ensures var st := Handle(s, text, toNumber);
            && st.out != []
            && (st.effect.Drop? <==> s.state in {AwaitingGoal, Completed}
                                     || (s.state == AwaitingRecipeType && ParseMeal(text).Some?))
  {
  }

  /**
   * A message never creates a session, and it is answered exactly when its
   * trimmed text is not empty and the chat has a session.
   */
  lemma ReceiveNeverCreates(store: Store, chatId: int, raw: Option<string>, toNumber: string -> JsNumber)
    ensures var r := Receive(store, chatId, raw, toNumber);
            && r.store.Keys <= store.Keys
            && (r.out == [] <==> IncomingText(raw) == "" || chatId !in store)
  {
    if IncomingText(raw) != "" && chatId in store {
      HandleEnds(store[chatId], IncomingText(raw), toNumber);
    }
  }

  /** The /start handler over the store. */
  function Start(store: Store, chatId: int): (r: Reply)
    ensures r.store.Keys == store.Keys + {chatId}
    ensures r.store[chatId] == Initial
    ensures forall k :: k in store && k != chatId ==> r.store[k] == store[k]
    ensures r.out == [Greeting, Prompt(AwaitingConsultation)]
  {
    Reply(store[chatId := Initial], [Greeting, Prompt(AwaitingConsultation)])
  }

  // ---------------------------------------------------------------------
  // What each step does
  // ---------------------------------------------------------------------

  /** Empty text, or a chat without a session: nothing changes, nothing is sent. */
  lemma IgnoredMessage(store: Store, chatId: int, raw: Option<string>, toNumber: string -> JsNumber)
    requires raw.None? || AllSpace(raw.value) || chatId !in store
    ensures Receive(store, chatId, raw, toNumber) == Reply(store, [])
  {
    if raw.Some? {
      TrimShape(raw.value);
    }
  }

  /** A message only ever touches its own chat's entry. */
  lemma OtherChatsUntouched(store: Store, chatId: int, raw: Option<string>, toNumber: string -> JsNumber, k: int)
    requires k != chatId
    ensures var r := Receive(store, chatId, raw, toNumber);
            (k in r.store <==> k in store) && (k in store ==> r.store[k] == store[k])
  {
  }

  /** The consultation menu: two exact labels move on, anything else re-prompts. */
  lemma ConsultationStep(data: UserData, text: string, toNumber: string -> JsNumber)
    ensures var s := Snapshot(AwaitingConsultation, data);
            var st := Handle(s, text, toNumber);
            && (text == MetricsChoice ==> st == Step(Keep(Snapshot(AwaitingName, data)), [Prompt(AwaitingName)]))
            && (text == RecipesChoice ==> st == Step(Keep(Snapshot(AwaitingRecipeType, data)), [Prompt(AwaitingRecipeType)]))
            && (text != MetricsChoice && text != RecipesChoice ==> st == Step(Keep(s), [Prompt(AwaitingConsultation)]))
  {
  }

  /** Any name is taken as it is. */
  lemma NameStep(data: UserData, text: string, toNumber: string -> JsNumber)
    ensures Handle(Snapshot(AwaitingName, data), text, toNumber)
            == Step(Keep(Snapshot(AwaitingAge, data.(name := Some(text)))), [Prompt(AwaitingAge)])
  {
  }

  /** The numeric questions in order: age, weight, height. */
  function NextAfterNumber(q: BotState): BotState
    requires q == AwaitingAge || q == AwaitingWeight || q == AwaitingHeight
  {
    match q
    case AwaitingAge => AwaitingWeight
    case AwaitingWeight => AwaitingHeight
    case AwaitingHeight => AwaitingActivity
  }

  /** Sets the field a numeric question fills, leaving the others as they are. */
  function SetNumber(d: UserData, q: BotState, n: JsNumber): UserData
    requires q == AwaitingAge || q == AwaitingWeight || q == AwaitingHeight
  {
    match q
    case AwaitingAge => d.(age := Some(n))
    case AwaitingWeight => d.(weight := Some(n))
    case AwaitingHeight => d.(height := Some(n))
  }

  /**
   * Age, weight and height: a strictly positive number sets exactly that
   * field and advances one question; anything else re-prompts and leaves the
   * session as it was.
   */
  lemma NumericStep(s: Snapshot, text: string, toNumber: string -> JsNumber)
    requires s.state == AwaitingAge || s.state == AwaitingWeight || s.state == AwaitingHeight
    ensures var st := Handle(s, text, toNumber);
            var n := toNumber(text);
            && ((n.Finite? && n.value > 0.0) || n == PositiveInfinity ==>
                 st == Step(Keep(Snapshot(NextAfterNumber(s.state), SetNumber(s.data, s.state, n))),
                            [Prompt(NextAfterNumber(s.state))]))
            && (n == NaN || (n.Finite? && n.value <= 0.0) || n == NegativeInfinity ==>
                 st == Step(Keep(s), [Prompt(s.state)]))
  {
  }

  /** The activity question: the three exact labels, nothing else. */
  lemma ActivityStep(data: UserData, text: string, toNumber: string -> JsNumber)
    ensures var s := Snapshot(AwaitingActivity, data);
            var st := Handle(s, text, toNumber);
            && (forall a :: text == ActivityLabel(a) ==>
                  st == Step(Keep(Snapshot(AwaitingGoal, data.(activityLevel := Some(a)))), [Prompt(AwaitingGoal)]))
            && ((forall a :: text != ActivityLabel(a)) ==> st == Step(Keep(s), [Prompt(AwaitingActivity)]))
  {
  }

  /** The recipe question: a meal label ends the session with its text. */
  lemma RecipeStep(data: UserData, text: string, toNumber: string -> JsNumber)
    ensures var s := Snapshot(AwaitingRecipeType, data);
            var st := Handle(s, text, toNumber);
            && (forall m :: text == MealLabel(m) ==>
                  st == Step(Drop, [Recipe(if m == Snack then CurdDessertRecipe else OatmealRecipe)]))
            && ((forall m :: text != MealLabel(m)) ==> st == Step(Keep(s), [Prompt(AwaitingRecipeType)]))
  {
    forall m | text == MealLabel(m)
      ensures Handle(Snapshot(AwaitingRecipeType, data), text, toNumber).effect == Drop
    {
      ParseMealExact(text, m);
    }
  }

  /** The questions that check their answer: the two menus and the validated answers. */
  predicate Validates(q: BotState) {
    q in {AwaitingConsultation, AwaitingAge, AwaitingWeight, AwaitingHeight, AwaitingActivity, AwaitingRecipeType}
  }

  /** The answer passes the check of the question the session is waiting for. */
  predicate Accepts(s: Snapshot, text: string, toNumber: string -> JsNumber)
    requires Validates(s.state)
  {
    match s.state
    case AwaitingConsultation => text == MetricsChoice || text == RecipesChoice
    case AwaitingAge => !Rejected(toNumber(text))
    case AwaitingWeight => !Rejected(toNumber(text))
    case AwaitingHeight => !Rejected(toNumber(text))
    case AwaitingActivity => ParseActivity(text).Some?
    case AwaitingRecipeType => ParseMeal(text).Some?
  }

  /**
   * A question that checks its answer asks itself again, leaving the session
   * exactly as it was, if and only if the answer fails that check.
   */
  lemma RejectedAnswerReprompts(s: Snapshot, text: string, toNumber: string -> JsNumber)
    requires Validates(s.state)
    ensures !Accepts(s, text, toNumber) <==> Handle(s, text, toNumber) == Step(Keep(s), [Prompt(s.state)])
  {
  }

  // ---------------------------------------------------------------------
  // The session invariant
  // ---------------------------------------------------------------------

  /** How many answers a session in this state has collected. */
  function Answered(q: BotState): nat {
    match q
    case AwaitingConsultation => 0
    case AwaitingRecipeType => 0
    case AwaitingName => 0
    case AwaitingAge => 1
    case AwaitingWeight => 2
    case AwaitingHeight => 3
    case AwaitingActivity => 4
    case AwaitingGoal => 5
    case Completed => 6
  }

  /**
   * The first `k` questions (name, age, weight, height, activity) have valid
   * answers and the rest have none; the goal is never stored.
   */
  predicate FilledExactly(d: UserData, k: nat) {
    && (d.name.Some? <==> k >= 1)
    && (d.age.Some? <==> k >= 2)
    && (d.weight.Some? <==> k >= 3)
    && (d.height.Some? <==> k >= 4)
    && (d.activityLevel.Some? <==> k >= 5)
    && d.goal.None?
    && (d.name.Some? ==> d.name.value != "")
    && (d.age.Some? ==> !Rejected(d.age.value))
    && (d.weight.Some? ==> !Rejected(d.weight.value))
    && (d.height.Some? ==> !Rejected(d.height.value))
  }

  /** A stored session: never Completed, and holding exactly its state's answers. */
  predicate WellFormed(s: Snapshot) {
    s.state != Completed && FilledExactly(s.data, Answered(s.state))
  }

  predicate AllWellFormed(store: Store) {
    forall k :: k in store ==> WellFormed(store[k])
  }

  lemma InitialWellFormed()
    ensures WellFormed(Initial)
  {
  }

  /** Every step that keeps a session keeps it well formed. */
  lemma HandleKeepsWellFormed(s: Snapshot, text: string, toNumber: string -> JsNumber)
    requires WellFormed(s) && text != ""
    ensures var st := Handle(s, text, toNumber);
            st.effect.Keep? ==> WellFormed(st.effect.session)
  {
  }

  /**
   * The goal answer always ends the session. Since every way into
   * AwaitingGoal has filled the other five fields, a valid goal yields the
   * results and an invalid one yields the re-prompt and "start over".
   */
  lemma GoalStepEndsSession(s: Snapshot, text: string, toNumber: string -> JsNumber)
    requires WellFormed(s) && s.state == AwaitingGoal
    ensures var st := Handle(s, text, toNumber);
            var d := s.data;
            && st.effect == Drop
            && (forall g :: text == GoalLabel(g) ==>
                  st.out == [Results(d.name.value, d.age.value, d.weight.value, d.height.value,
                                     CalorieFactor(g), StepNorm(d.activityLevel.value))])
            && ((forall g :: text != GoalLabel(g)) ==> st.out == [Prompt(AwaitingGoal), StartOver])
  {
    var d := s.data;
    forall g | text == GoalLabel(g)
      ensures Handle(s, text, toNumber).out
              == [Results(d.name.value, d.age.value, d.weight.value, d.height.value,
                          CalorieFactor(g), StepNorm(d.activityLevel.value))]
    {
      ParseGoalExact(text, g);
      assert Complete(d.(goal := Some(g)));
    }
    if forall g :: text != GoalLabel(g) {
      assert ParseGoal(text).None?;
      assert !Complete(d);
    }
  }

  /** The 'message' handler keeps every stored session well formed. */
  lemma ReceiveKeepsWellFormed(store: Store, chatId: int, raw: Option<string>, toNumber: string -> JsNumber)
    requires AllWellFormed(store)
    ensures AllWellFormed(Receive(store, chatId, raw, toNumber).store)
  {
    var text := IncomingText(raw);
    if text != "" && chatId in store {
      HandleKeepsWellFormed(store[chatId], text, toNumber);
    }
  }

  /** /start keeps every stored session well formed. */
  lemma StartKeepsWellFormed(store: Store, chatId: int)
    requires AllWellFormed(store)
    ensures AllWellFormed(Start(store, chatId).store)
  {
    InitialWellFormed();
  }

  /** So no stored session is ever in Completed. */
  lemma NoStoredCompleted(store: Store, k: int)
    requires AllWellFormed(store) && k in store
    ensures store[k].state != Completed
  {
  }
}
