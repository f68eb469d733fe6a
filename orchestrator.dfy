/**
 * `close_loop_ask` (close_loop.py:186-580) as the source runs it: a list of
 * model records updated in place, round after round. Each method is proved
 * to leave the records as the functions of module Debate say, so every
 * property proved there holds of this code.
 */
module Orchestrator {
  import opened Maybe
  import opened Records
  import opened Prompts
  import opened Debate
  import ResponseParser

  /** One `ModelState` dict: its identity is fixed, the four debate fields change. */
  class ModelState {
    const id: string
    const name: string
    const supportsWeb: bool
    var down: bool
    var lastAnswer: string
    var lastStruct: string
    var lastAgree: bool

    constructor (id: string, name: string, supportsWeb: bool)
      ensures Snap() == Fresh(id, name, supportsWeb)
    {
      this.id := id;
      this.name := name;
      this.supportsWeb := supportsWeb;
      down := false;
      lastAnswer := [];
      lastStruct := [];
      lastAgree := false;
    }

    /** The record's current value. */
    function Snap(): Rec
      reads this
    {
      Rec(id, name, supportsWeb, down, lastAnswer, lastStruct, lastAgree)
    }
  }

  /** The values of all records, in registry order. */
  function Snapshot(models: seq<ModelState>): (r: seq<Rec>)
    reads models
    ensures |r| == |models|
    ensures forall i :: 0 <= i < |models| ==> r[i] == models[i].Snap()
  {
    seq(|models|, i reads models requires 0 <= i < |models| => models[i].Snap())
  }

  /** No record object appears twice in the list. */
  predicate Distinct(models: seq<ModelState>) {
    forall i, j :: 0 <= i < j < |models| ==> models[i] != models[j]
  }

  /** The initial calls (close_loop.py:398-406), one per record, with the record's web flag. */
  method AskAll(models: seq<ModelState>, question: string, ask: Oracle) returns (outcomes: seq<Outcome>)
    ensures |outcomes| == |models|
    ensures forall j :: 0 <= j < |models| ==> outcomes[j] == ask(j, Initial(question, models[j].supportsWeb))
  {
    outcomes := [];
    for i := 0 to |models|
      invariant |outcomes| == i
      invariant forall j :: 0 <= j < i ==> outcomes[j] == ask(j, Initial(question, models[j].supportsWeb))
    {
      outcomes := outcomes + [ask(i, Initial(question, models[i].supportsWeb))];
    }
  }

  /**
   * The initial round (close_loop.py:398-423): every call is dispatched
   * first, then each result is stored in registry order.
   */
  method InitialAnswers(models: seq<ModelState>, question: string, ask: Oracle)
    requires Distinct(models)
    modifies models
    ensures Snapshot(models) == InitialRound(old(Snapshot(models)), question, ask)
  {
    ghost var start := Snapshot(models);
    var outcomes := AskAll(models, question, ask);
    for i := 0 to |models|
      invariant forall j :: 0 <= j < i ==> models[j].Snap() == InitialStep(start[j], j, question, ask)
      invariant forall j :: i <= j < |models| ==> models[j].Snap() == start[j]
    {
      var m := models[i];
      match outcomes[i]
      case Ok(raw) =>
        m.lastAnswer := raw;
      case Err(e) =>
        m.down := true;
        m.lastAnswer := InitialFailure(m.name, e);
    }
  }

  /** `participants = [m for m in models if not m["temporarily_down"]]`, with their indices. */
  method Participating(models: seq<ModelState>) returns (act: seq<nat>, parts: seq<Rec>)
    ensures act == Active(Snapshot(models))
    ensures parts == Participants(Snapshot(models))
  {
    ghost var s := Snapshot(models);
    act, parts := [], [];
    for k := 0 to |models|
      invariant act + ActiveFrom(s, k) == Active(s)
      invariant |parts| == |act| && forall a :: 0 <= a < |act| ==> act[a] < |s| && parts[a] == s[act[a]]
    {
      if !models[k].down {
        assert ActiveFrom(s, k) == [k] + ActiveFrom(s, k + 1);
        assert act + ActiveFrom(s, k) == (act + [k]) + ActiveFrom(s, k + 1);
        act, parts := act + [k], parts + [models[k].Snap()];
      }
    }
    assert act == Active(s);
  }

  /**
   * One participant's turn: the reply is stored raw and parsed into the
   * agreement flag and the answer; a failure marks the record down and
   * leaves a failure marker (close_loop.py:459-484).
   */
  method TakeTurn(m: ModelState, i: nat, round: nat, prompt: DebatePrompt, ask: Oracle, out: Outcome)
    requires !m.down && out == ask(i, DebateCall(round, prompt, m.supportsWeb))
    modifies m
    ensures m.Snap() == DebateStep(old(m.Snap()), i, round, prompt, ask)
  {
    match out
    case Ok(raw) =>
      m.lastStruct := raw;
      var (agree, answer) := ResponseParser.ParseListResponse(raw);
      m.lastAgree := agree;
      m.lastAnswer := answer;
    case Err(e) =>
      m.down := true;
      m.lastStruct := LoopFailure(m.name, round, e);
  }

  /** `prompts[m["id"]] = build_debate_prompt(m, participants)` for every participant. */
  method BuildPrompts(ghost start: seq<Rec>, act: seq<nat>, parts: seq<Rec>) returns (prompts: seq<DebatePrompt>)
    requires act == Active(start) && parts == Participants(start)
    ensures |prompts| == |act|
    ensures forall b :: 0 <= b < |act| ==> prompts[b] == PromptFor(start, act[b])
  {
    prompts := [];
    for a := 0 to |act|
      invariant |prompts| == a
      invariant forall b :: 0 <= b < a ==> prompts[b] == PromptFor(start, act[b])
    {
      prompts := prompts + [BuildDebatePrompt(parts[a], parts)];
    }
  }

  /** `for m in models: m["temporarily_down"] = False`. */
  method ResetAll(models: seq<ModelState>)
    requires Distinct(models)
    modifies models
    ensures forall j :: 0 <= j < |models| ==> models[j].Snap() == old(models[j].Snap()).(down := false)
  {
    for k := 0 to |models|
      invariant forall j :: 0 <= j < k ==> models[j].Snap() == old(models[j].Snap()).(down := false)
      invariant forall j :: k <= j < |models| ==> models[j].Snap() == old(models[j].Snap())
    {
      models[k].down := false;
    }
  }

  /** Every participant's call, dispatched with its prompt and its web flag. */
  method Dispatch(models: seq<ModelState>, act: seq<nat>, prompts: seq<DebatePrompt>, round: nat, ask: Oracle)
    returns (outcomes: seq<Outcome>)
    requires |prompts| == |act| && forall a :: 0 <= a < |act| ==> act[a] < |models|
    ensures |outcomes| == |act|
    ensures forall a :: 0 <= a < |act| ==>
      outcomes[a] == ask(act[a], DebateCall(round, prompts[a], models[act[a]].supportsWeb))
  {
    outcomes := [];
    for a := 0 to |act|
      invariant |outcomes| == a
      invariant forall b :: 0 <= b < a ==>
        outcomes[b] == ask(act[b], DebateCall(round, prompts[b], models[act[b]].supportsWeb))
    {
      outcomes := outcomes + [ask(act[a], DebateCall(round, prompts[a], models[act[a]].supportsWeb))];
    }
  }

  /**
   * The participants take their turns in registry order, after the reset:
   * participant `act[a]` ends as its turn leaves it (`after[a]`), every
   * other record as the reset left it.
   */
  method Collect(models: seq<ModelState>, ghost start: seq<Rec>, act: seq<nat>, prompts: seq<DebatePrompt>,
                 outcomes: seq<Outcome>, round: nat, ask: Oracle, ghost after: seq<Rec>)
    requires Distinct(models) && |start| == |models|
    requires forall a :: 0 <= a < |act| ==> act[a] < |models|
    requires forall a, b :: 0 <= a < b < |act| ==> act[a] < act[b]
    requires |prompts| == |act| && |outcomes| == |act| && |after| == |act|
    requires forall a :: 0 <= a < |act| ==>
      outcomes[a] == ask(act[a], DebateCall(round, prompts[a], start[act[a]].supportsWeb))
    requires forall a :: 0 <= a < |act| ==>
      after[a] == DebateStep(start[act[a]].(down := false), act[a], round, prompts[a], ask)
    requires forall j :: 0 <= j < |models| ==> models[j].Snap() == start[j].(down := false)
    modifies models
    ensures forall a :: 0 <= a < |act| ==> models[act[a]].Snap() == after[a]
    ensures forall j :: 0 <= j < |models| && j !in act ==> models[j].Snap() == start[j].(down := false)
  {
    ghost var cur := Snapshot(models);
    for a := 0 to |act|
      invariant cur == Snapshot(models)
      invariant forall b :: 0 <= b < a ==> cur[act[b]] == after[b]
      invariant forall j :: 0 <= j < |cur| && j !in act[..a] ==> cur[j] == start[j].(down := false)
    {
      var i := act[a];
      assert i !in act[..a];
      TakeTurn(models[i], i, round, prompts[a], ask, outcomes[a]);
      forall j | 0 <= j < |models| && j != i ensures models[j].Snap() == cur[j] {
        assert models[j] != models[i];
      }
      TurnRecorded(cur, act, after, a);
      TurnOthersKept(cur, act, a, after[a], start);
      cur := cur[i := after[a]];
    }
    assert act[..|act|] == act;
  }

  /** Recording turn `a` keeps the earlier turns' records and adds its own. */
  lemma TurnRecorded(cur: seq<Rec>, act: seq<nat>, after: seq<Rec>, a: nat)
    requires a < |act| && |after| == |act| && act[a] < |cur|
    requires forall b, c :: 0 <= b < c < |act| ==> act[b] < act[c]
    requires forall b :: 0 <= b < a ==> cur[act[b]] == after[b]
    ensures forall b :: 0 <= b <= a ==> cur[act[a] := after[a]][act[b]] == after[b]
  {
  }

  /** Recording turn `a` leaves every record that has not had a turn yet as it was. */
  lemma TurnOthersKept(cur: seq<Rec>, act: seq<nat>, a: nat, rec: Rec, start: seq<Rec>)
    requires a < |act| && act[a] < |cur| && |start| == |cur|
    requires forall j :: 0 <= j < |cur| && j !in act[..a] ==> cur[j] == start[j].(down := false)
    ensures forall j :: 0 <= j < |cur| && j !in act[..a + 1] ==> cur[act[a] := rec][j] == start[j].(down := false)
  {
    assert act[..a + 1] == act[..a] + [act[a]];
  }

  /**
   * One debate round (close_loop.py:434-484) for the records that are up:
   * the prompts are built from the participants before any call, the calls
   * are dispatched, every record is reset to not-down, and then each
   * participant's reply or failure is stored in registry order.
   */
  method PlayRound(models: seq<ModelState>, round: nat, ask: Oracle)
    requires Distinct(models)
    modifies models
    ensures Snapshot(models) == Round(old(Snapshot(models)), round, ask)
  {
    ghost var start := Snapshot(models);
    var act, parts := Participating(models);
    var prompts := BuildPrompts(start, act, parts);
    var outcomes := Dispatch(models, act, prompts, round, ask);
    ResetAll(models);
    ghost var after := seq(|act|, a requires 0 <= a < |act| => RoundRec(start, act[a], round, ask));
    Collect(models, start, act, prompts, outcomes, round, ask, after);
    RoundOfTurns(start, act, after, Snapshot(models), round, ask);
  }

  /** A round's records: each participant as its turn leaves it, every other record reset. */
  lemma RoundOfTurns(start: seq<Rec>, act: seq<nat>, after: seq<Rec>, now: seq<Rec>, round: nat, ask: Oracle)
    requires act == Active(start) && |after| == |act| && |now| == |start|
    requires forall a :: 0 <= a < |act| ==> after[a] == RoundRec(start, act[a], round, ask)
    requires forall a :: 0 <= a < |act| ==> now[act[a]] == after[a]
    requires forall j :: 0 <= j < |now| && j !in act ==> now[j] == start[j].(down := false)
    ensures now == Round(start, round, ask)
  {
    forall j | 0 <= j < |now| ensures now[j] == RoundRec(start, j, round, ask) {
      if j in act {
        var a :| 0 <= a < |act| && act[a] == j;
      }
    }
  }

  /** `successful_models and all(m["last_agree"] for m in successful_models)`. */
  method ConsensusReached(models: seq<ModelState>) returns (agreed: bool)
    ensures agreed == Consensus(Snapshot(models))
  {
    ghost var s := Snapshot(models);
    var any, all := false, true;
    for k := 0 to |models|
      invariant any == exists j :: 0 <= j < k && Counted(s[j])
      invariant all == forall j :: 0 <= j < k && Counted(s[j]) ==> s[j].lastAgree
    {
      if !models[k].down && models[k].lastStruct != [] {
        any := true;
        all := all && models[k].lastAgree;
      }
    }
    agreed := any && all;
  }

  /** The debate loop (close_loop.py:428-499); `loops` is the last value of `loop_idx`. */
  method RunLoops(models: seq<ModelState>, maxLoops: int, ask: Oracle) returns (loops: nat)
    requires Distinct(models)
    modifies models
    ensures var d := DebateLoop(old(Snapshot(models)), 0, maxLoops, ask);
      Snapshot(models) == d.recs && loops == d.loops
  {
    ghost var outcome := DebateLoop(Snapshot(models), 0, maxLoops, ask);
    loops := 0;
    while loops < maxLoops
      invariant DebateLoop(Snapshot(models), loops, maxLoops, ask) == outcome
      decreases maxLoops - loops
    {
      loops := loops + 1;
      var act, parts := Participating(models);
      if |act| < 2 {
        break;
      }
      PlayRound(models, loops, ask);
      var agreed := ConsensusReached(models);
      if agreed {
        break;
      }
    }
  }

  /**
   * The final answers (close_loop.py:501-532): a final call for each record
   * that said something, keyed by id, then the answers or failure
   * placeholders collected under the records' display names.
   */
  method CollectFinals(models: seq<ModelState>, lang: string, ask: Oracle) returns (finals: map<string, string>)
    requires DistinctIdentities(Snapshot(models))
    ensures finals == Finalize(Snapshot(models), lang, ask)
  {
    ghost var s := Snapshot(models);
    var calls: map<string, Outcome> := map[];
    for k := 0 to |models|
      invariant forall id :: id in calls <==> exists j :: 0 <= j < k && HasText(s[j]) && s[j].id == id
      invariant forall j :: 0 <= j < k && HasText(s[j]) ==>
        calls[s[j].id] == ask(j, Final(BuildFinalPrompt(s[j], lang), s[j].supportsWeb))
    {
      var m := models[k];
      if m.lastAnswer != [] || m.lastStruct != [] {
        calls := calls[m.id := ask(k, Final(BuildFinalPrompt(m.Snap(), lang), m.supportsWeb))];
      }
    }
    finals := map[];
    for k := 0 to |models|
      invariant FinalizeFrom(s, k, lang, ask, finals) == Finalize(s, lang, ask)
    {
      var m := models[k];
      assert m.id in calls <==> HasText(s[k]);
      if m.id in calls {
        match calls[m.id]
        case Ok(ans) =>
          finals := finals[m.name := ans];
        case Err(e) =>
          finals := finals[m.name := FinalFailure(m.name, e)];
      }
    }
  }

  /** `get_model` (close_loop.py:208-212): the first record with id `mid`, or none. */
  method GetModel(models: seq<ModelState>, mid: string) returns (m: ModelState?)
    ensures FindModel(Snapshot(models), mid).None? ==> m == null
    ensures FindModel(Snapshot(models), mid).Some? ==> m == models[FindModel(Snapshot(models), mid).value]
  {
    for k := 0 to |models|
      invariant forall j :: 0 <= j < k ==> models[j].id != mid
    {
      if models[k].id == mid {
        return models[k];
      }
    }
    return null;
  }

  /** `pick_final` (close_loop.py:535-545). */
  method PickFinalAnswer(models: seq<ModelState>, finals: map<string, string>, mid: string) returns (answer: string)
    ensures answer == PickFinal(Snapshot(models), finals, mid)
  {
    var m := GetModel(models, mid);
    if m == null {
      answer := UnknownId(mid);
    } else if m.name in finals {
      answer := finals[m.name];
    } else if m.lastAnswer != [] {
      answer := m.lastAnswer;
    } else if m.lastStruct != [] {
      answer := m.lastStruct;
    } else {
      answer := NoOutput(m.name);
    }
  }

  /** `(get_model(models, mid) or {}).get("last_struct", "")`. */
  method LastStruct(models: seq<ModelState>, mid: string) returns (raw: string)
    ensures raw == StructOf(Snapshot(models), mid)
  {
    var m := GetModel(models, mid);
    raw := if m == null then [] else m.lastStruct;
  }

  /** The registry of close_loop.py:338-388, as fresh records. */
  method NewRegistry() returns (models: seq<ModelState>)
    ensures fresh(models) && Distinct(models)
    ensures Snapshot(models) == Registry
  {
    var gemini := new ModelState("gemini", "Google Gemini", true);
    var chatgpt := new ModelState("chatgpt", "OpenAI ChatGPT", true);
    var deepseek := new ModelState("deepseek", "DeepSeek", false);
    models := [gemini, chatgpt, deepseek];
  }

  /** The final answers and the six returned strings (close_loop.py:501-580). */
  method Summarize(models: seq<ModelState>, lang: string, ask: Oracle) returns (result: Answers)
    requires DistinctIdentities(Snapshot(models))
    ensures result == Report(Snapshot(models), lang, ask)
  {
    var finals := CollectFinals(models, lang, ask);
    var geminiFinal := PickFinalAnswer(models, finals, "gemini");
    var chatgptFinal := PickFinalAnswer(models, finals, "chatgpt");
    var deepseekFinal := PickFinalAnswer(models, finals, "deepseek");
    var geminiStruct := LastStruct(models, "gemini");
    var chatgptStruct := LastStruct(models, "chatgpt");
    var deepseekStruct := LastStruct(models, "deepseek");
    result := Answers(geminiFinal, chatgptFinal, deepseekFinal, geminiStruct, chatgptStruct, deepseekStruct);
  }

  /** `close_loop_ask`: the whole run, from a fresh registry to the six returned strings. */
  method CloseLoopAsk(question: string, maxLoops: int, lang: string, ask: Oracle) returns (result: Answers)
    ensures result == Run(question, maxLoops, lang, ask)
  {
    var models := NewRegistry();
    InitialAnswers(models, question, ask);
    var loops := RunLoops(models, maxLoops, ask);
    DebatedDistinct(question, maxLoops, ask);
    result := Summarize(models, lang, ask);
  }
}
