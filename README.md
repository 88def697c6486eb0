# bot-nutritionist intake, in Dafny

This is a model of the conversation engine of the bot-nutritionist Telegram bot
(`src/index.ts`). For every chat the bot keeps a session: a state (which question
it is waiting for) and the answers gathered so far. Two handlers act on the
sessions:

- `/start` creates a fresh session.
- The `message` handler trims the incoming text and dispatches on the session's
  state. It either stores an answer and asks the next question, asks the same
  question again, or ends the flow. Ending the flow sends the summary (the
  calorie norm, the daily water and the step norm) or a recipe, then deletes
  the session.

The model has six modules:

- `Wrappers`: the `Option` type.
- `JsText`: JavaScript's `String.prototype.trim`. It removes WhiteSpace and
  LineTerminator code points (ECMAScript 2024, sections 12.2, 12.3 and 22.1.3.32).
  The lemmas say what is removed and that trimming is idempotent.
- `Tables`: the fixed tables.
  - The consultation, activity, goal and meal labels, with exact-match parsers.
  - `STEP_NORMS` and `CALORIE_FACTORS`.
  - The recipe switch of `sendRecipeStub`.
  - The calorie and water formulas, stated over exact reals.
- `Intake`: the state machine as values.
  - `Handle` is one pass through the `switch (session.state)`.
  - `Receive` is the whole `message` handler over the session map. `Start` is
    the `/start` handler.
  - The session invariant `WellFormed` says that a stored session is never
    `Completed` and holds exactly the answers its state implies. Both handlers
    preserve it.
- `ChatBot`: the program's own shape.
  - A `Session` class whose fields the handler updates in place.
  - A `Bot` class holding the `sessions` map.
  - `OnStart` and `OnMessage` are proved to do exactly what `Intake.Start` and
    `Intake.Receive` say, and to keep every stored session well formed.
- `Scenarios`: conversations, meaning sequences of `/start` and messages for one
  chat.
  - Properties of any conversation: other chats are untouched, sessions stay well
    formed, and a chat without a session is ignored.
  - The happy path for any valid answers, plus the worked example. The recipe
    path. What happens on invalid answers.

`Number(text)` is not modelled character by character. It is the function
`toNumber: string -> JsNumber`, given to `Bot` when it is built. A `JsNumber` is
NaN, a finite real, or plus or minus Infinity, so the numeric guard
`isNaN(n) || n <= 0` is modelled exactly.

Two behaviours of the code are worth stating outright:

- **The goal question does not re-ask.** `case AwaitingGoal` has no `break`
  (`src/index.ts:269-285`). An answer that is not a goal label sends the goal
  question again, control falls into the `Completed` branch, "start over" is
  sent and the session is deleted (`src/index.ts:277-284`). A valid goal sends
  the summary and deletes the session. `Intake.GoalStepEndsSession` and
  `Scenarios.InvalidGoalEndsSession` state this.
- **Age is any positive number, not an integer.** Age, weight and height all pass
  the same guard `isNaN(n) || n <= 0`, so `"30.5"` and `"Infinity"` are
  accepted as an age.

## Model

| member | source | states |
|---|---|---|
| JsText.IsTrimSpace | src/index.ts:199 | The code points `trim()` removes: the ECMAScript WhiteSpace and LineTerminator sets (tab, vertical tab, form feed, space, no-break space, BOM, the Unicode space separators, LF, CR, LS, PS); `JsText.TrimShape` states what is removed in terms of it |
| JsText.Trim | src/index.ts:199 | `msg.text?.trim()`: drop leading, then trailing, white space; its contract is stated by `JsText.TrimShape`, `JsText.TrimEmptyIffAllSpace`, `JsText.TrimKeepsTrimmed` and `JsText.TrimIdempotent` |
| JsText.TrimStartShape | src/index.ts:199 | The leading-space step of `trim()` leaves a suffix of the text that does not start with white space, and everything it dropped is white space |
| JsText.TrimEndShape | src/index.ts:199 | The trailing-space step of `trim()` leaves a prefix that does not end with white space, and everything it dropped is white space |
| JsText.TrimShape | src/index.ts:199 | `trim()` returns a contiguous piece of the text that neither starts nor ends with white space, and it is empty exactly when the text is all white space |
| JsText.TrimEmptyIffAllSpace | src/index.ts:199 | The trimmed text is empty if and only if every character is white space or a line terminator |
| JsText.TrimKeepsTrimmed | src/index.ts:199 | Text without surrounding white space is left unchanged by `trim()` |
| JsText.TrimIdempotent | src/index.ts:199 | Trimming twice gives the same text as trimming once |
| JsText.TrimExample | src/index.ts:199 | A name typed as " Anna" followed by a newline is read as "Anna" |
| Tables.ActivityLabel | src/index.ts:28-32 | The `ActivityLevel` enum values "низкий", "средний", "высокий"; `Tables.ParseActivityExact` states that they are the only texts read as an activity |
| Tables.ParseActivity | src/index.ts:256-261 | A recognised activity is one whose label equals the text exactly |
| Tables.ParseActivityExact | src/index.ts:256-261 | The text is read as activity `a` if and only if it is `a`'s label: "низкий", "средний" or "высокий" and nothing else |
| Tables.StepNorm | src/index.ts:86-88 | `getStepNorm` looks the level up in `STEP_NORMS`; `Tables.StepNormTable` states the three values |
| Tables.StepNormTable | src/index.ts:68-72 | `getStepNorm` gives 5000, 8000 and 10000 steps for low, medium and high activity |
| Tables.GoalLabel | src/index.ts:34-38 | The `Goal` enum values "похудеть", "набрать массу", "просто узнать норму"; `Tables.ParseGoalExact` states that they are the only texts read as a goal |
| Tables.ParseGoal | src/index.ts:270-275 | A recognised goal is one whose label equals the text exactly |
| Tables.ParseGoalExact | src/index.ts:270-275 | The text is read as goal `g` if and only if it is `g`'s label: "похудеть", "набрать массу" or "просто узнать норму" |
| Tables.CalorieFactor | src/index.ts:60-64 | `CALORIE_FACTORS` as a function of the goal; `Tables.CalorieFactorTable` states the three values |
| Tables.CalorieFactorTable | src/index.ts:60-64 | The goal factors are 0.85 (lose), 1.15 (gain) and 1.00 (maintain) |
| Tables.RoundHalfUp | src/index.ts:79 | `Math.round` gives an integer within half of its argument, rounding halves up |
| Tables.Calories | src/index.ts:77-80 | `calculateCalories(weight, height, age, factor)`: the calorie norm is within 0.5 of (10·weight + 6.25·height − 5·age − 161) times the factor, rounded half up |
| Tables.WaterLitres | src/index.ts:82-84 | The water norm is a whole number of tenths of a litre, within 0.05 of 0.03 litres per kilogram, and a product exactly halfway between two tenths goes to the one farther from zero, as `toFixed(1)` does |
| Tables.ExampleNorms | src/index.ts:77-88 | 70 kg, 170 cm and 30 years with the maintain factor give 1452 kcal and 2.1 litres, and high activity gives 10000 steps |
| Tables.MealLabel | src/index.ts:148-153 | The five meal buttons of the recipe keyboard; `Tables.ParseMealExact` states that they are the only texts read as a meal |
| Tables.ParseMeal | src/index.ts:287-293 | A recognised meal is one whose label equals the text exactly |
| Tables.ParseMealExact | src/index.ts:287-293 | The text is read as meal `m` if and only if it is `m`'s label, one of the five meal buttons |
| Tables.RecipeFor | src/index.ts:160-180 | The snack label gets the curd dessert, the other four meal labels get the oatmeal, and anything else gets the "choose a meal" text; each outcome holds exactly for its labels |
| Intake.Rejected | src/index.ts:224 | The guard `isNaN(n) \|\| n <= 0` on a JavaScript number, also used at lines 235 and 246; `Intake.AcceptedIffPositive` states which numbers pass |
| Intake.AcceptedIffPositive | src/index.ts:224 | A number passes `isNaN(n) \|\| n <= 0` if and only if it is a finite positive number or +Infinity |
| Intake.ResultsFor | src/index.ts:306-315 | `sendResults` sends "start over" exactly when a field is missing or the name is empty, and the summary exactly when every field is present; `Intake.Complete` is that guard (src/index.ts:308). The summary carries the stored answers, the goal's calorie factor and the activity's step norm, from which the calorie norm and the water are computed |
| Intake.Start | src/index.ts:187-195 | `/start` gives the chat a session in AwaitingConsultation with no data, leaves every other chat's session as it was, and sends the greeting and the consultation menu |
| Intake.IncomingText | src/index.ts:199 | `msg.text?.trim()`: the trimmed text, or empty when the message has no text; `Intake.IgnoredMessage` states that an empty result is ignored |
| Intake.Handle | src/index.ts:203-299 | One pass through `switch (session.state)`: the new session or its deletion, and the messages sent; its properties are stated by `Intake.HandleEnds`, `Intake.RejectedAnswerReprompts` and the per-state lemmas below |
| Intake.HandleEnds | src/index.ts:203-299 | Every pass through the switch sends at least one message, and deletes the session exactly in the goal and Completed states or when a meal label answers the recipe question |
| Intake.Receive | src/index.ts:197-301 | The whole `message` handler over the session map; stated by `Intake.ReceiveApplies`, `Intake.ReceiveNeverCreates`, `Intake.IgnoredMessage` and `Intake.OtherChatsUntouched` |
| Intake.ReceiveNeverCreates | src/index.ts:197-301 | A message never creates a session, and it gets a reply if and only if it has non-blank text and its chat has a session |
| Intake.ReceiveApplies | src/index.ts:197-301 | A non-empty message for a chat that has a session stores the switch's new session, or deletes the entry when the flow ends, and sends the switch's output |
| Intake.IgnoredMessage | src/index.ts:199-201 | A message without text, with only white space, or for a chat without a session changes nothing and sends nothing |
| Intake.OtherChatsUntouched | src/index.ts:197-301 | A message never adds, removes or changes another chat's session |
| Intake.ConsultationStep | src/index.ts:204-214 | The metrics label (`Tables.MetricsChoice`, src/index.ts:97 and 205) moves to the name question, the recipes label (`Tables.RecipesChoice`, src/index.ts:98 and 208) moves to the meal question, and any other text re-sends the menu and keeps the session |
| Intake.NameStep | src/index.ts:216-220 | Any text is stored as the name, exactly as received after trimming, and the age question follows |
| Intake.NumericStep | src/index.ts:222-253 | For age, weight and height, a positive number sets exactly that field and asks the next question. NaN, zero, negatives and −Infinity re-ask the same question and change nothing |
| Intake.ActivityStep | src/index.ts:255-267 | Exactly the three activity labels store the level and ask for the goal. Any other text re-asks and changes nothing |
| Intake.RecipeStep | src/index.ts:286-299 | A meal label sends that meal's recipe and ends the flow. Any other text re-asks and keeps the session |
| Intake.Accepts | src/index.ts:204-299 | For each question that checks its answer, the answers it takes: a menu label, a number passing the guard, an activity label, a meal label |
| Intake.RejectedAnswerReprompts | src/index.ts:204-299 | At a question that checks its answer, the switch keeps the session exactly as it was and asks that same question again if and only if the answer fails the check |
| Intake.InitialWellFormed | src/index.ts:189-192 | The session `/start` creates satisfies the session invariant |
| Intake.HandleKeepsWellFormed | src/index.ts:203-299 | Every step that keeps a session keeps it well formed: never Completed, answers present exactly up to its state, name non-empty, numbers positive |
| Intake.GoalStepEndsSession | src/index.ts:269-285 | Every goal answer ends the session. A goal label sends the summary with that goal's factor. Any other text sends the goal question again and then "start over" |
| Intake.ReceiveKeepsWellFormed | src/index.ts:197-301 | The `message` handler keeps every stored session well formed |
| Intake.StartKeepsWellFormed | src/index.ts:187-195 | The `/start` handler keeps every stored session well formed |
| Intake.NoStoredCompleted | src/index.ts:276-284 | No stored session is ever in the Completed state, because Completed is always followed by deletion |
| ChatBot.Session.constructor | src/index.ts:189-192 | A new session waits for the consultation choice and holds no data |
| ChatBot.Session.Answer | src/index.ts:203-299 | The in-place switch leaves the session's fields as `Intake.Handle` prescribes, returns its output, and says whether the flow ended |
| ChatBot.Bot.constructor | src/index.ts:55 | The session map starts empty, holding no session objects |
| ChatBot.Bot.OnStart | src/index.ts:187-195 | The `/start` handler updates the map and output exactly as `Intake.Start` does, keeps the map valid, and the session object it installs is newly allocated, as the object literal is |
| ChatBot.Bot.OnMessage | src/index.ts:197-301 | The `message` handler updates the map, and the sessions it holds, exactly as `Intake.Receive` does, keeping distinct chats on distinct sessions and all sessions well formed; it installs no session object the map did not already hold, so the bot can be called again |
| Scenarios.Apply | src/index.ts:187-197 | One event goes to the handler registered for it: `/start` to `Intake.Start`, a message to `Intake.Receive`; the run lemmas below state what follows |
| Scenarios.Run | src/index.ts:187-301 | The events of one chat are handled one after another in arrival order, each on the map the previous one left, and their replies are concatenated; `Scenarios.RunAppend` and `Scenarios.RunCons` state how runs compose |
| Scenarios.RunAppend | src/index.ts:187-301 | Handling two pieces of a conversation one after the other is handling the joined conversation |
| Scenarios.RunIgnoresUnknownChat | src/index.ts:199-201 | A chat without a session stays silent and unchanged through any run of messages |
| Scenarios.RunKeepsWellFormed | src/index.ts:187-301 | Every stored session stays well formed through any conversation |
| Scenarios.RunLeavesOtherChats | src/index.ts:187-301 | A conversation in one chat leaves every other chat's session as it was |
| Scenarios.RunOpening | src/index.ts:187-214 | `/start` followed by a menu choice leads to the name question or the meal question, with no data |
| Scenarios.RunNumber | src/index.ts:222-253 | A numeric answer, read by `Number` after trimming, is stored and the next question asked, or it is rejected and the same question asked again |
| Scenarios.RunName | src/index.ts:216-220 | A non-blank message is stored, trimmed, as the name and the age question asked |
| Scenarios.RunActivity | src/index.ts:255-267 | An answer that reads as an activity label once trimmed stores that level and asks the goal question |
| Scenarios.RunGoal | src/index.ts:269-285 | A goal answer deletes the session and sends either the summary, or the re-prompt and "start over" |
| Scenarios.RunUpToAge | src/index.ts:216-231 | A name and a valid age are stored in order and the weight question is asked |
| Scenarios.RunUpToWeight | src/index.ts:216-242 | A name, age and weight are stored in order and the height question is asked |
| Scenarios.RunUpToHeight | src/index.ts:216-253 | Name, age, weight and height are stored and the activity question is asked |
| Scenarios.AnswersReachGoal | src/index.ts:216-267 | Valid answers to the five questions, the activity given by any text that trims to its label, lead to the goal question with all five stored |
| Scenarios.MetricsOpeningThen | src/index.ts:187-214 | `/start` and the metrics choice followed by any conversation reply with the greeting, the menu and the name question, then continue as that conversation does from the name question |
| Scenarios.QuestionnaireReachesGoal | src/index.ts:187-267 | `/start`, the metrics choice and valid answers (as typed, trimmed by the handler) lead to the goal question, having sent every prompt in order |
| Scenarios.QuestionnaireWithGoal | src/index.ts:187-315 | `/start`, the metrics choice, valid answers and an answer that trims to a goal label send every question in order and then the summary, and delete the session |
| Scenarios.HappyPath | src/index.ts:187-315 | Valid answers and an answer that trims to a goal label end in the summary built from those answers as trimmed and read by `Number`, and the session is deleted, so later messages in that chat are ignored |
| Scenarios.AnnaExample | src/index.ts:187-315 | Any conversation whose answers read, after trimming, as Anna, 30, 70, 170 and the high and maintain labels (so padded labels too) ends in a summary with 10000 steps and factor 1.00, whose fields give 1452 kcal and 2.1 litres |
| Scenarios.InvalidGoalEndsSession | src/index.ts:269-311 | After valid answers, a text that is not a goal label sends the goal question again and "start over", and deletes the session |
| Scenarios.InvalidAgeReprompts | src/index.ts:222-231 | An age that is not a positive number asks for the age again and stores nothing for it |
| Scenarios.InvalidWeightReprompts | src/index.ts:233-242 | A weight that is not a positive number asks for the weight again and stores nothing for it |
| Scenarios.RecipeConversation | src/index.ts:286-299 | `/start`, the recipes choice and an answer that trims to a meal label send that meal's recipe, and the session is deleted |

## Left out

- Telegram transport (the `node-telegram-bot-api` client, polling, `msg.chat.id` extraction), the token and `dotenv`: these are I/O. Chat ids are plain integers and each handler returns its outgoing messages as a list.
- Prompt wording, reply keyboards and the layout of the summary text: each question is `Prompt(state)`, and the summary is `Results(...)` carrying the answers, the calorie factor and the step norm, from which the calories and the water that `sendResults` prints are computed as `Tables.Calories(weight, height, age, calorieFactor)` and `Tables.WaterLitres(weight)`.
- Intake.ResultsFor: the summary carries the inputs of the calorie and water formulas, not the computed numbers. `Tables.Calories` and `Tables.WaterLitres` state those formulas separately over exact reals, because the answers may be +Infinity and JavaScript computes with IEEE-754 doubles.
- Tables.Calories, Tables.WaterLitres: real arithmetic rather than double-precision floating point. `toFixed(1)` and `parseFloat` are modelled as exact rounding to one decimal, halves away from zero, so a product whose double is just below or above a half may round differently in JavaScript.
- `Number(text)`: the JavaScript numeric-literal grammar is not modelled. It is the function `toNumber`, and every statement holds for whatever that function returns.
- `/start`: the event `StartCommand` stands for any message whose text the unanchored pattern `/\/start/` matches (`src/index.ts:187`), such as "/start", "/start@bot" or an answer that contains "/start". Such a message also reaches the `message` handler as ordinary text, in an order set by the client library. The model treats `/start` and messages as separate events in a chosen order; the second, ordinary delivery of the same text (a consultation re-prompt when it arrives after the reset, or an answer stored before it) is not modelled.
- Concurrency: JavaScript runs one handler at a time, so the model applies events one by one.
- JsText.IsTrimSpace: the Unicode space separators are listed as a fixed set; there is no Unicode database.
