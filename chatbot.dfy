/**
 * The bot as the program runs it: a module-level map from chat id to a
 * mutable session object, a /start handler that replaces a chat's entry and
 * a 'message' handler that updates the session's fields in place and deletes
 * the entry when the flow ends. Each handler is proved to do what Intake.Start
 * and Intake.Receive say, and to keep every stored session well formed.
 */
module ChatBot {
  import opened Wrappers
  import opened JsText
  import opened Tables
  import opened Intake

  /** The `{state, data}` object stored per chat and mutated by the handler. */
  class Session {
    var state: BotState
    var data: UserData

    constructor ()
      ensures state == AwaitingConsultation && data == NoData
    {
      state := AwaitingConsultation;
      data := NoData;
    }

    function Value(): Snapshot
      reads this
    {
      Snapshot(state, data)
    }

    /**
     * The switch on `session.state` for one trimmed, non-empty text: updates
     * this session's fields in place and says whether the flow has ended
     * (the handler then deletes the chat's entry).
     */
    method Answer(text: string, toNumber: string -> JsNumber) returns (out: seq<Output>, ended: bool)
      modifies this
      ensures Handle(old(Value()), text, toNumber) == Step(if ended then Drop else Keep(Value()), out)
    {
      match state {
        case AwaitingConsultation =>
          if text == MetricsChoice {
            state := AwaitingName;
            out := [Prompt(AwaitingName)];
          } else if text == RecipesChoice {
            state := AwaitingRecipeType;
            out := [Prompt(AwaitingRecipeType)];
          } else {
            out := [Prompt(AwaitingConsultation)];
          }
          ended := false;
        case AwaitingName =>
          data := data.(name := Some(text));
          state := AwaitingAge;
          out, ended := [Prompt(AwaitingAge)], false;
        case AwaitingAge =>
          var age := toNumber(text);
          if Rejected(age) {
            out := [Prompt(AwaitingAge)];
          } else {
            data := data.(age := Some(age));
            state := AwaitingWeight;
            out := [Prompt(AwaitingWeight)];
          }
          ended := false;
        case AwaitingWeight =>
          var weight := toNumber(text);
          if Rejected(weight) {
            out := [Prompt(AwaitingWeight)];
          } else {
            data := data.(weight := Some(weight));
            state := AwaitingHeight;
            out := [Prompt(AwaitingHeight)];
          }
          ended := false;
        case AwaitingHeight =>
          var height := toNumber(text);
          if Rejected(height) {
            out := [Prompt(AwaitingHeight)];
          } else {
            data := data.(height := Some(height));
            state := AwaitingActivity;
            out := [Prompt(AwaitingActivity)];
          }
          ended := false;
        case AwaitingActivity =>
          var level := ParseActivity(text);
          if level.Some? {
            data := data.(activityLevel := level);
            state := AwaitingGoal;
            out := [Prompt(AwaitingGoal)];
          } else {
            out := [Prompt(AwaitingActivity)];
          }
          ended := false;
        case AwaitingGoal =>
          // No `break` here: whatever the answer, the Completed branch runs next.
          var goal := ParseGoal(text);
          if goal.Some? {
            data := data.(goal := goal);
            state := Completed;
            out := [];
          } else {
            out := [Prompt(AwaitingGoal)];
          }
          out, ended := out + [ResultsFor(data)], true;
        case Completed =>
          out, ended := [ResultsFor(data)], true;
        case AwaitingRecipeType =>
          if ParseMeal(text).Some? {
            out, ended := [Recipe(RecipeFor(text))], true;
          } else {
            out, ended := [Prompt(AwaitingRecipeType)], false;
          }
      }
    }
  }

  class Bot {
    /** `sessions`: chat id to that chat's session object. */
    var sessions: map<int, Session>
    /** JavaScript's Number(), as the handler uses it on numeric answers. */
    const toNumber: string -> JsNumber

    /** Distinct chats never share a session object, and every session is well formed. */
    ghost predicate Valid()
      reads this, sessions.Values
    {
      && (forall a, b :: a in sessions && b in sessions && a != b ==> sessions[a] != sessions[b])
      && AllWellFormed(Contents())
    }

    /** The store as values. */
    ghost function Contents(): Store
      reads this, sessions.Values
    {
      map k | k in sessions :: sessions[k].Value()
    }

    constructor (toNumber: string -> JsNumber)
      ensures Valid()
      ensures sessions == map[] && Contents() == map[] && this.toNumber == toNumber
    {
      sessions := map[];
      this.toNumber := toNumber;
    }

    /** The /start handler: a fresh session for this chat, replacing any old one. */
    method OnStart(chatId: int) returns (out: seq<Output>)
      requires Valid()
      modifies this
      ensures Valid()
      ensures Reply(Contents(), out) == Start(old(Contents()), chatId)
      ensures fresh(sessions.Values - old(sessions.Values))
    {
      var s := new Session();
      sessions := sessions[chatId := s];
      out := [Greeting, Prompt(AwaitingConsultation)];
      assert Contents() == old(Contents())[chatId := Initial];
      StartKeepsWellFormed(old(Contents()), chatId);
    }

    /**
     * The 'message' handler. `raw` is `msg.text`, absent for a message
     * without text. The switch itself is Session.Answer; the entry is
     * deleted where that switch ends the flow.
     */
    method OnMessage(chatId: int, raw: Option<string>) returns (out: seq<Output>)
      requires Valid()
      modifies this, sessions.Values
      ensures Valid()
      ensures Reply(Contents(), out) == Receive(old(Contents()), chatId, raw, toNumber)
      ensures sessions.Values <= old(sessions.Values)
    {
      var text := if raw.Some? then Trim(raw.value) else "";
      if text == "" || chatId !in sessions {
        return [];
      }
      var session := sessions[chatId];
      ghost var before := Contents();
      assert before[chatId] == session.Value();
      var ended;
      out, ended := session.Answer(text, toNumber);
      ReceiveApplies(before, chatId, raw, toNumber, Step(if ended then Drop else Keep(session.Value()), out));
      forall k | k in sessions && k != chatId
        ensures sessions[k].Value() == before[k]
      {
        assert sessions[k] != session;
      }
      if ended {
        sessions := sessions - {chatId};
        assert Contents() == before - {chatId};
      } else {
        assert Contents() == before[chatId := session.Value()];
      }
      ReceiveKeepsWellFormed(before, chatId, raw, toNumber);
    }
  }
}
