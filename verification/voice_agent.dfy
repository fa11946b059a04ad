/**
 The simple voice agent's own state: the bounded conversation history, the
 current response mode, the mode-switch command router, and the command
 short-circuit at the top of `think`. The hosted model's answer arrives as an
 argument (None when the call raised).
 */
module VoiceAgent {
  import opened Wrappers
  import opened Text

  datatype Message = Message(role: string, content: string)

  /** The agent's state; a `mode` of None is the default chain. */
  datatype Agent = Agent(history: seq<Message>, mode: Option<string>)

  /** `max_history`: the last three exchanges. */
  const MaxHistory: nat := 6

  /** The last `n` elements of `xs`, or all of them when there are fewer. */
  function LastN<T>(xs: seq<T>, n: nat): seq<T> {
    if |xs| <= n then xs else xs[|xs| - n..]
  }

  // ---------------------------------------------------------------------
  // History

  /** `add_to_history`: append, then keep only the newest `MaxHistory` messages. */
  function AddToHistory(a: Agent, role: string, content: string): (r: Agent)
    ensures r.mode == a.mode
    ensures |r.history| == if |a.history| < MaxHistory then |a.history| + 1 else MaxHistory
    ensures r.history[|r.history| - 1] == Message(role, content)
  {
    var h := a.history + [Message(role, content)];
    a.(history := if |h| > MaxHistory then h[|h| - MaxHistory..] else h)
  }

  /** Appending a batch of messages one by one. */
  function AddAll(a: Agent, ms: seq<Message>): (r: Agent)
    ensures r.mode == a.mode
    decreases |ms|
  {
    if |ms| == 0 then a
    else AddAll(AddToHistory(a, ms[0].role, ms[0].content), ms[1..])
  }

  /** One addition keeps the newest six of the old history and the new message. */
  lemma AddKeepsNewest(a: Agent, m: Message)
    ensures AddToHistory(a, m.role, m.content).history == LastN(a.history + [m], MaxHistory)
  {
  }

  /** The history after any run of messages is the newest six of everything said. */
  lemma {:induction false} HistoryIsNewest(a: Agent, ms: seq<Message>)
    requires |a.history| <= MaxHistory
    ensures AddAll(a, ms).history == LastN(a.history + ms, MaxHistory)
    decreases |ms|
  {
    if |ms| == 0 {
      assert a.history + ms == a.history;
    } else {
      var h := a.history + [ms[0]];
      var b := AddToHistory(a, ms[0].role, ms[0].content);
      NewestStep(a, ms);
      HistoryIsNewest(b, ms[1..]);
      AppendedNewest(h, ms[1..]);
      assert h + ms[1..] == a.history + ms;
    }
  }

  /** The first message of a run goes in through one `add_to_history`. */
  lemma NewestStep(a: Agent, ms: seq<Message>)
    requires |ms| > 0
    ensures AddAll(a, ms) == AddAll(AddToHistory(a, ms[0].role, ms[0].content), ms[1..])
    ensures AddToHistory(a, ms[0].role, ms[0].content).history == LastN(a.history + [ms[0]], MaxHistory)
    ensures |AddToHistory(a, ms[0].role, ms[0].content).history| <= MaxHistory
  {
    AddKeepsNewest(a, ms[0]);
  }

  /** Trimming before further messages arrive does not change what the newest six are. */
  lemma {:induction false} AppendedNewest(h: seq<Message>, ms: seq<Message>)
    ensures LastN(LastN(h, MaxHistory) + ms, MaxHistory) == LastN(h + ms, MaxHistory)
  {
    var k := LastN(h, MaxHistory);
    var l := LastN(k + ms, MaxHistory);
    var r := LastN(h + ms, MaxHistory);
    assert |l| == |r|;
    forall i | 0 <= i < |l|
      ensures l[i] == r[i]
    {
      var j := |k + ms| - |l| + i;
      if j >= |k| {
        assert l[i] == ms[j - |k|];
        assert r[i] == (h + ms)[|h + ms| - |r| + i] == ms[j - |k|];
      } else {
        assert l[i] == k[j] == h[|h| - |k| + j];
        assert r[i] == (h + ms)[|h| - |k| + j];
      }
    }
  }

  // ---------------------------------------------------------------------
  // Modes

  const Modes: seq<string> := ["default", "humor", "weather_only", "business"]

  const ModeList: string := "Доступные режимы: default, humor, weather_only, business. Скажите 'режим [название]' для переключения."

  /** The name the agent reports for its mode. */
  function ModeName(a: Agent): string {
    a.mode.GetOr("default")
  }

  /** `switch_chain`: a known mode name switches ("default" back to none); anything else lists the modes. */
  function SwitchChain(a: Agent, name: Option<string>): (r: (Agent, string))
    ensures r.0.history == a.history
    ensures name.Some? && name.value in Modes ==>
      && r.0.mode == (if name.value == "default" then None else Some(name.value))
      && r.1 == "Переключаюсь в режим '" + name.value + "'. Теперь я буду отвечать по-другому!"
    ensures !(name.Some? && name.value in Modes) ==> r == (a, ModeList)
  {
    match name
    case Some(n) =>
      if n != "" && n in Modes then
        (a.(mode := if n != "default" then Some(n) else None),
         "Переключаюсь в режим '" + n + "'. Теперь я буду отвечать по-другому!")
      else (a, ModeList)
    case None => (a, ModeList)
  }

  /** After switching to a known mode, the agent reports that mode's name. */
  lemma SwitchThenName(a: Agent, n: string)
    requires n in Modes
    ensures ModeName(SwitchChain(a, Some(n)).0) == n
  {
  }

  /** Switching twice to the same mode is switching once. */
  lemma SwitchIdempotent(a: Agent, n: string)
    ensures SwitchChain(SwitchChain(a, Some(n)).0, Some(n)).0 == SwitchChain(a, Some(n)).0
  {
  }

  // ---------------------------------------------------------------------
  // Commands

  const HumorWords: seq<string> := ["юмор", "анекдот", "humor"]
  const WeatherWords: seq<string> := ["погода", "weather"]
  const BusinessWords: seq<string> := ["деловой", "бизнес", "business"]
  const DefaultWords: seq<string> := ["обычный", "default", "стандарт"]

  /** A message that is a mode command: it mentions "режим" or "переключ". */
  predicate IsModeCommand(lower: string) {
    Contains(lower, "режим") || Contains(lower, "переключ")
  }

  /** The mode a command asks for, by keyword priority; None lists the modes. */
  function RequestedMode(lower: string): (r: Option<string>)
    ensures AnyContained(HumorWords, lower) ==> r == Some("humor")
    ensures !AnyContained(HumorWords, lower) && AnyContained(WeatherWords, lower) ==> r == Some("weather_only")
    ensures (!AnyContained(HumorWords, lower) && !AnyContained(WeatherWords, lower)
             && AnyContained(BusinessWords, lower)) ==> r == Some("business")
    ensures (!AnyContained(HumorWords, lower) && !AnyContained(WeatherWords, lower)
             && !AnyContained(BusinessWords, lower) && AnyContained(DefaultWords, lower)) ==> r == Some("default")
    ensures r.None? <==> !AnyContained(HumorWords, lower) && !AnyContained(WeatherWords, lower)
                         && !AnyContained(BusinessWords, lower) && !AnyContained(DefaultWords, lower)
    ensures r.Some? ==> r.value in Modes
  {
    if AnyContained(HumorWords, lower) then Some("humor")
    else if AnyContained(WeatherWords, lower) then Some("weather_only")
    else if AnyContained(BusinessWords, lower) then Some("business")
    else if AnyContained(DefaultWords, lower) then Some("default")
    else None
  }

  /** `handle_chain_commands`: None when the message is not a command. */
  function HandleChainCommands(a: Agent, message: string): (r: Option<(Agent, string)>)
    ensures r.Some? ==> r.value.0.history == a.history
    ensures IsModeCommand(LowerStr(message)) ==> r == Some(SwitchChain(a, RequestedMode(LowerStr(message))))
    ensures r.None? <==> !IsModeCommand(LowerStr(message)) && !Contains(LowerStr(message), "какой режим")
                         && !Contains(LowerStr(message), "текущий режим")
  {
    var lower := LowerStr(message);
    if IsModeCommand(lower) then Some(SwitchChain(a, RequestedMode(lower)))
    else if Contains(lower, "какой режим") || Contains(lower, "текущий режим") then
      Some((a, "Сейчас активен режим: " + ModeName(a)))
    else None
  }

  /**
   Both phrases of the current-mode query contain "режим", which the switch
   branch tests first: a command never reports the current mode; it either
   switches or lists the modes.
   */
  lemma CurrentModeUnreachable(a: Agent, message: string)
    ensures var r := HandleChainCommands(a, message);
      r.Some? ==> r.value == SwitchChain(a, RequestedMode(LowerStr(message)))
  {
    var lower := LowerStr(message);
    assert "какой режим" == "какой " + "режим";
    assert "текущий режим" == "текущий " + "режим";
    if Contains(lower, "какой режим") {
      ContainsSuffix(lower, "какой ", "режим");
    }
    if Contains(lower, "текущий режим") {
      ContainsSuffix(lower, "текущий ", "режим");
    }
  }

  /** A message with no trigger word leaves the agent as it was and gets no command reply. */
  lemma NoTriggerNoChange(a: Agent, message: string)
    requires !Contains(LowerStr(message), "режим") && !Contains(LowerStr(message), "переключ")
    ensures HandleChainCommands(a, message).None?
  {
    var lower := LowerStr(message);
    assert "какой режим" == "какой " + "режим";
    assert "текущий режим" == "текущий " + "режим";
    if Contains(lower, "какой режим") {
      ContainsSuffix(lower, "какой ", "режим");
    }
    if Contains(lower, "текущий режим") {
      ContainsSuffix(lower, "текущий ", "режим");
    }
  }

  // ---------------------------------------------------------------------
  // Think

  const NoModelReply: string := "Извините, у меня проблемы с мышлением."
  const EmptyAnswerReply: string := "Хм, что-то я задумалась... Повторите, пожалуйста?"
  const RaisedReply: string := "Извините, что-то с моими мыслями не так."

  /**
   `think`: without a model a fixed apology; a command is answered before the
   history is touched; otherwise the user's message is recorded, and a
   non-empty answer from the model is recorded after it.
   */
  function Think(a: Agent, message: string, connected: bool, answer: Option<string>): (r: (Agent, string))
    ensures !connected ==> r == (a, NoModelReply)
    ensures connected && HandleChainCommands(a, message).Some? ==> r == HandleChainCommands(a, message).value
    ensures connected && HandleChainCommands(a, message).None? ==>
      var heard := AddToHistory(a, "user", message);
      r == (match answer
            case Some(text) => if text != "" then (AddToHistory(heard, "assistant", text), text) else (heard, EmptyAnswerReply)
            case None => (heard, RaisedReply))
  {
    if !connected then (a, NoModelReply)
    else match HandleChainCommands(a, message)
      case Some(reply) => reply
      case None =>
        var heard := AddToHistory(a, "user", message);
        match answer
        case Some(text) => if text != "" then (AddToHistory(heard, "assistant", text), text) else (heard, EmptyAnswerReply)
        case None => (heard, RaisedReply)
  }

  /** A command never reaches the history, and an ordinary message always ends up in it. */
  lemma ThinkHistory(a: Agent, message: string, answer: Option<string>)
    ensures HandleChainCommands(a, message).Some? ==> Think(a, message, true, answer).0.history == a.history
    ensures HandleChainCommands(a, message).None? ==>
      var h := Think(a, message, true, answer).0.history;
      Message("user", message) in h && |h| <= MaxHistory
  {
    if HandleChainCommands(a, message).None? {
      var heard := AddToHistory(a, "user", message);
      assert heard.history[|heard.history| - 1] == Message("user", message);
      match answer
      case Some(text) =>
        if text != "" {
          var told := AddToHistory(heard, "assistant", text);
          assert told.history[|told.history| - 2] == Message("user", message);
        }
      case None =>
    }
  }
}
