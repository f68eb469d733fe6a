/**
 * `close_loop_ask` (close_loop.py:186-580) as a function of its inputs:
 * the question, `max_loops`, the output language and the replies of the
 * models. Each model call is answered by an oracle `ask`, given the
 * model's registry index and the call it receives; the debate round number
 * is part of a debate call, so a model may answer every round differently.
 *
 * The rounds are modelled one after another. The source dispatches each
 * round's calls to a thread pool and collects the results in registry
 * order only after every call of the round was submitted, so the order of
 * the updates below is the one the source applies.
 */
module Debate {
  import opened Maybe
  import opened Text
  import opened Records
  import opened Prompts
  import ResponseParser

  /** What a vendor client's `ask` gives back: the reply, or the exception it raised. */
  datatype Outcome = Ok(text: string) | Err(reason: string)

  /** The three kinds of call `close_loop_ask` makes, with the web flag it passes. */
  datatype Call =
    | Initial(question: string, web: bool)
    | DebateCall(round: nat, prompt: DebatePrompt, web: bool)
    | Final(finalPrompt: FinalPrompt, web: bool)

  type Oracle = (nat, Call) -> Outcome

  /* ---------- failure markers ---------- */

  function InitialFailure(name: string, reason: string): (s: string)
    ensures s != [] && s[0] == '['
  {
    "[" + name + " initial call failed: " + reason + "]"
  }

  function LoopFailure(name: string, round: nat, reason: string): (s: string)
    ensures s != [] && s[0] == '['
  {
    "[" + name + " call failed in loop " + NatToString(round) + ": " + reason + "]"
  }

  function FinalFailure(name: string, reason: string): (s: string)
    ensures s != [] && s[0] == '['
  {
    "[" + name + " final answer failed: " + reason + "]"
  }

  /* ---------- the initial round ---------- */

  /**
   * One model's initial answer: a reply becomes `last_answer`; a failure
   * marks the model down and leaves a failure marker there instead.
   * `last_struct` and `last_agree` are not touched.
   */
  function InitialStep(r: Rec, i: nat, question: string, ask: Oracle): (r': Rec)
    ensures r'.id == r.id && r'.name == r.name && r'.supportsWeb == r.supportsWeb
    ensures r'.lastStruct == r.lastStruct && r'.lastAgree == r.lastAgree
    ensures ask(i, Initial(question, r.supportsWeb)).Ok? ==>
      r'.down == r.down && r'.lastAnswer == ask(i, Initial(question, r.supportsWeb)).text
    ensures ask(i, Initial(question, r.supportsWeb)).Err? ==> r'.down && r'.lastAnswer != []
  {
    match ask(i, Initial(question, r.supportsWeb))
    case Ok(raw) => r.(lastAnswer := raw)
    case Err(e) => r.(down := true, lastAnswer := InitialFailure(r.name, e))
  }

  /** Every model answers the original question once. */
  function InitialRound(recs: seq<Rec>, question: string, ask: Oracle): (r: seq<Rec>)
    ensures |r| == |recs|
    ensures forall i :: 0 <= i < |recs| ==> r[i] == InitialStep(recs[i], i, question, ask)
  {
    seq(|recs|, i requires 0 <= i < |recs| => InitialStep(recs[i], i, question, ask))
  }

  /* ---------- participants ---------- */

  /** The indices, from `k` on and in registry order, of the records that are not down. */
  function ActiveFrom(recs: seq<Rec>, k: nat): (r: seq<nat>)
    requires k <= |recs|
    ensures forall j :: j in r <==> k <= j < |recs| && !recs[j].down
    ensures forall a :: 0 <= a < |r| ==> k <= r[a] < |recs|
    ensures forall a, b :: 0 <= a < b < |r| ==> r[a] < r[b]
    decreases |recs| - k
  {
    if k == |recs| then []
    else if recs[k].down then ActiveFrom(recs, k + 1)
    else [k] + ActiveFrom(recs, k + 1)
  }

  /** `[m for m in models if not m["temporarily_down"]]`, as indices. */
  function Active(recs: seq<Rec>): seq<nat> {
    ActiveFrom(recs, 0)
  }

  /** The participant records, in registry order. */
  function Participants(recs: seq<Rec>): (p: seq<Rec>)
    ensures |p| == |Active(recs)|
    ensures forall a :: 0 <= a < |p| ==> p[a] == recs[Active(recs)[a]]
  {
    var act := Active(recs);
    seq(|act|, a requires 0 <= a < |act| => recs[act[a]])
  }

  /* ---------- a debate round ---------- */

  /**
   * One participant's turn in round `round`: a reply is stored raw in
   * `last_struct` and parsed into `last_agree` and `last_answer`; a failure
   * marks the model down and replaces only `last_struct`, by a marker.
   */
  function DebateStep(r: Rec, i: nat, round: nat, prompt: DebatePrompt, ask: Oracle): (r': Rec)
    ensures r'.id == r.id && r'.name == r.name && r'.supportsWeb == r.supportsWeb
    ensures ask(i, DebateCall(round, prompt, r.supportsWeb)).Ok? ==>
      var raw := ask(i, DebateCall(round, prompt, r.supportsWeb)).text;
      !r'.down && r'.lastStruct == raw
      && (r'.lastAgree, r'.lastAnswer) == ResponseParser.ParseListResponse(raw)
    ensures ask(i, DebateCall(round, prompt, r.supportsWeb)).Err? ==>
      r'.down && r'.lastStruct != [] && r'.lastAnswer == r.lastAnswer && r'.lastAgree == r.lastAgree
  {
    match ask(i, DebateCall(round, prompt, r.supportsWeb))
    case Ok(raw) =>
      var parsed := ResponseParser.ParseListResponse(raw);
      r.(down := false, lastStruct := raw, lastAgree := parsed.0, lastAnswer := parsed.1)
    case Err(e) => r.(down := true, lastStruct := LoopFailure(r.name, round, e))
  }

  /** The prompt record `i` receives in a round that starts from `recs`. */
  function PromptFor(recs: seq<Rec>, i: nat): DebatePrompt
    requires i < |recs|
  {
    BuildDebatePrompt(recs[i], Participants(recs))
  }

  /**
   * Record `i` after a round that starts from `recs`: every record is first
   * reset to not-down; the participants then take their turn.
   */
  function RoundRec(recs: seq<Rec>, i: nat, round: nat, ask: Oracle): Rec
    requires i < |recs|
  {
    if recs[i].down then recs[i].(down := false)
    else DebateStep(recs[i].(down := false), i, round, PromptFor(recs, i), ask)
  }

  /** A whole round (close_loop.py:441-484). */
  function Round(recs: seq<Rec>, round: nat, ask: Oracle): (r: seq<Rec>)
    ensures |r| == |recs|
    ensures forall i :: 0 <= i < |recs| ==> r[i] == RoundRec(recs, i, round, ask)
  {
    seq(|recs|, i requires 0 <= i < |recs| => RoundRec(recs, i, round, ask))
  }

  /**
   * What a round does to record `i`: a record that sat the round out ends
   * up not-down with its fields unchanged; a participant is asked with the
   * prompt built from the round's participants, and ends up as the reply
   * or the failure dictates.
   */
  lemma RoundEffect(recs: seq<Rec>, round: nat, ask: Oracle, i: nat)
    requires i < |recs|
    ensures var r := Round(recs, round, ask)[i];
      r.id == recs[i].id && r.name == recs[i].name && r.supportsWeb == recs[i].supportsWeb
    ensures recs[i].down ==> Round(recs, round, ask)[i] == recs[i].(down := false)
    ensures !recs[i].down ==>
      var r, out := Round(recs, round, ask)[i], ask(i, DebateCall(round, PromptFor(recs, i), recs[i].supportsWeb));
      (out.Ok? ==>
         !r.down && r.lastStruct == out.text
         && (r.lastAgree, r.lastAnswer) == ResponseParser.ParseListResponse(out.text))
      && (out.Err? ==>
            r.down && r.lastStruct != []
            && r.lastAnswer == recs[i].lastAnswer && r.lastAgree == recs[i].lastAgree)
  {
  }

  /** A participant whose reply reads as agreement is counted, and agrees. */
  lemma RoundAgreeing(recs: seq<Rec>, round: nat, ask: Oracle, i: nat)
    requires i < |recs| && !recs[i].down
    requires var out := ask(i, DebateCall(round, PromptFor(recs, i), recs[i].supportsWeb));
      out.Ok? && out.text != [] && ResponseParser.ParseListResponse(out.text).0
    ensures Counted(Round(recs, round, ask)[i]) && Round(recs, round, ask)[i].lastAgree
  {
    RoundEffect(recs, round, ask, i);
  }

  /** A participant that fails is down after the round, and so not counted. */
  lemma RoundFailing(recs: seq<Rec>, round: nat, ask: Oracle, i: nat)
    requires i < |recs| && !recs[i].down
    requires ask(i, DebateCall(round, PromptFor(recs, i), recs[i].supportsWeb)).Err?
    ensures Round(recs, round, ask)[i].down && Round(recs, round, ask)[i].lastStruct != []
  {
    RoundEffect(recs, round, ask, i);
  }

  /* ---------- consensus ---------- */

  /** A record that is up and has a debate reply (or a debate failure marker) on file. */
  predicate Counted(r: Rec) {
    !r.down && r.lastStruct != []
  }

  /** `successful_models and all(m["last_agree"] for m in successful_models)`. */
  predicate Consensus(recs: seq<Rec>) {
    (exists i :: 0 <= i < |recs| && Counted(recs[i]))
    && forall i :: 0 <= i < |recs| && Counted(recs[i]) ==> recs[i].lastAgree
  }

  /** Consensus, checked record by record over the first `n` records. */
  lemma ConsensusOfEach(recs: seq<Rec>, k: nat)
    requires k < |recs| && Counted(recs[k])
    requires forall i :: 0 <= i < |recs| ==> Counted(recs[i]) ==> recs[i].lastAgree
    ensures Consensus(recs)
  {
  }

  /** One counted record that disagrees blocks consensus, and so does having no counted record. */
  lemma ConsensusBlocked(recs: seq<Rec>)
    ensures Consensus(recs) <==>
      !(exists i :: 0 <= i < |recs| && Counted(recs[i]) && !recs[i].lastAgree)
      && (exists i :: 0 <= i < |recs| && Counted(recs[i]))
  {
  }

  /**
   * The stale-agreement path: a record that failed in the previous round
   * is down and holds a failure marker; it sits this round out, is reset to
   * not-down, and so counts toward consensus with its old `last_agree`.
   */
  lemma StaleAgreement(recs: seq<Rec>, round: nat, ask: Oracle, i: nat)
    requires i < |recs| && recs[i].down && recs[i].lastStruct != []
    ensures i !in Active(recs)
    ensures Counted(Round(recs, round, ask)[i])
    ensures Round(recs, round, ask)[i].lastAgree == recs[i].lastAgree
  {
  }

  /** A record that fails in a round is not among the next round's participants. */
  lemma FailedSitsOutNextRound(recs: seq<Rec>, round: nat, ask: Oracle, i: nat)
    requires i < |recs| && !recs[i].down
    requires ask(i, DebateCall(round, PromptFor(recs, i), recs[i].supportsWeb)).Err?
    ensures i !in Active(Round(recs, round, ask))
  {
    RoundEffect(recs, round, ask, i);
  }

  /* ---------- the debate loop ---------- */

  datatype StopReason = Ceiling | TooFew | Agreed

  /** The records after the loop, the last value of `loop_idx`, and why the loop ended. */
  datatype LoopResult = LoopResult(recs: seq<Rec>, loops: nat, reason: StopReason)

  /** `while loop_idx < max_loops: ...` from `loop_idx` on (close_loop.py:428-499). */
  function DebateLoop(recs: seq<Rec>, loopIdx: nat, maxLoops: int, ask: Oracle): (r: LoopResult)
    ensures SameIdentities(recs, r.recs)
    ensures loopIdx <= r.loops && (loopIdx <= maxLoops ==> r.loops <= maxLoops)
    ensures r.reason == Ceiling ==> r.loops == if loopIdx <= maxLoops then maxLoops else loopIdx
    ensures r.reason != Ceiling ==> loopIdx < r.loops
    ensures r.reason == TooFew ==> |Active(r.recs)| < 2
    ensures r.reason == Agreed ==> Consensus(r.recs)
    decreases maxLoops - loopIdx
  {
    if loopIdx >= maxLoops then LoopResult(recs, loopIdx, Ceiling)
    else if |Active(recs)| < 2 then LoopResult(recs, loopIdx + 1, TooFew)
    else
      var next := Round(recs, loopIdx + 1, ask);
      assert SameIdentities(recs, next) by {
        forall i | 0 <= i < |recs| ensures next[i].id == recs[i].id {
          RoundEffect(recs, loopIdx + 1, ask, i);
        }
        forall i | 0 <= i < |recs| ensures next[i].name == recs[i].name && next[i].supportsWeb == recs[i].supportsWeb {
          RoundEffect(recs, loopIdx + 1, ask, i);
        }
      }
      if Consensus(next) then LoopResult(next, loopIdx + 1, Agreed)
      else DebateLoop(next, loopIdx + 1, maxLoops, ask)
  }

  /** A round that reaches consensus ends the loop with that round's records. */
  lemma ConsensusStops(recs: seq<Rec>, loopIdx: nat, maxLoops: int, ask: Oracle)
    requires loopIdx < maxLoops && |Active(recs)| >= 2 && Consensus(Round(recs, loopIdx + 1, ask))
    ensures DebateLoop(recs, loopIdx, maxLoops, ask) == LoopResult(Round(recs, loopIdx + 1, ask), loopIdx + 1, Agreed)
  {
  }

  /** `ConsensusStops` for the first round, stated with the round number written out. */
  lemma AgreedInFirstRound(recs: seq<Rec>, maxLoops: int, ask: Oracle)
    requires 0 < maxLoops && |Active(recs)| >= 2 && Consensus(Round(recs, 1, ask))
    ensures DebateLoop(recs, 0, maxLoops, ask) == LoopResult(Round(recs, 1, ask), 1, Agreed)
  {
    ConsensusStops(recs, 0, maxLoops, ask);
  }

  /** With fewer than two records up, the loop stops before any call is made. */
  lemma TooFewStopsAtOnce(recs: seq<Rec>, loopIdx: nat, maxLoops: int, ask: Oracle)
    requires loopIdx < maxLoops && |Active(recs)| < 2
    ensures DebateLoop(recs, loopIdx, maxLoops, ask) == LoopResult(recs, loopIdx + 1, TooFew)
  {
  }

  /* ---------- finalization ---------- */

  /** `m["last_answer"] or m["last_struct"]`: the model has said something at least once. */
  predicate HasText(r: Rec) {
    r.lastAnswer != [] || r.lastStruct != []
  }

  /** What the finalization stage stores for record `r` at index `i`. */
  function FinalValue(r: Rec, i: nat, lang: string, ask: Oracle): (v: string)
    ensures ask(i, Final(BuildFinalPrompt(r, lang), r.supportsWeb)).Ok? ==>
      v == ask(i, Final(BuildFinalPrompt(r, lang), r.supportsWeb)).text
    ensures ask(i, Final(BuildFinalPrompt(r, lang), r.supportsWeb)).Err? ==> v != [] && v[0] == '['
  {
    match ask(i, Final(BuildFinalPrompt(r, lang), r.supportsWeb))
    case Ok(ans) => ans
    case Err(e) => FinalFailure(r.name, e)
  }

  /** `final_answers_map`, built from index `k` on over `acc`, keyed by display name. */
  function FinalizeFrom(recs: seq<Rec>, k: nat, lang: string, ask: Oracle, acc: map<string, string>): (m: map<string, string>)
    requires k <= |recs|
    ensures forall n :: n in m <==> n in acc || exists i :: k <= i < |recs| && HasText(recs[i]) && recs[i].name == n
    decreases |recs| - k
  {
    if k == |recs| then acc
    else if !HasText(recs[k]) then FinalizeFrom(recs, k + 1, lang, ask, acc)
    else FinalizeFrom(recs, k + 1, lang, ask, acc[recs[k].name := FinalValue(recs[k], k, lang, ask)])
  }

  function Finalize(recs: seq<Rec>, lang: string, ask: Oracle): map<string, string> {
    FinalizeFrom(recs, 0, lang, ask, map[])
  }

  /** Where names are distinct, a record with text gets its own final value under its name. */
  lemma {:induction false} FinalizeFromValue(recs: seq<Rec>, k: nat, lang: string, ask: Oracle,
                                             acc: map<string, string>, i: nat)
    requires k <= i < |recs| && HasText(recs[i]) && DistinctIdentities(recs)
    ensures FinalizeFrom(recs, k, lang, ask, acc)[recs[i].name] == FinalValue(recs[i], i, lang, ask)
    decreases |recs| - k
  {
    if k < i {
      var acc' := if HasText(recs[k]) then acc[recs[k].name := FinalValue(recs[k], k, lang, ask)] else acc;
      FinalizeFromValue(recs, k + 1, lang, ask, acc', i);
    } else {
      var acc' := acc[recs[k].name := FinalValue(recs[k], k, lang, ask)];
      FinalizeKeeps(recs, k + 1, lang, ask, acc', recs[i].name);
    }
  }

  /** A name that no later record carries keeps its value. */
  lemma {:induction false} FinalizeKeeps(recs: seq<Rec>, k: nat, lang: string, ask: Oracle,
                                         acc: map<string, string>, n: string)
    requires k <= |recs| && n in acc
    requires forall j :: k <= j < |recs| ==> recs[j].name != n
    ensures FinalizeFrom(recs, k, lang, ask, acc)[n] == acc[n]
    decreases |recs| - k
  {
    if k < |recs| {
      var acc' := if HasText(recs[k]) then acc[recs[k].name := FinalValue(recs[k], k, lang, ask)] else acc;
      FinalizeKeeps(recs, k + 1, lang, ask, acc', n);
    }
  }

  /**
   * Finalization asks exactly the records that said something, and stores
   * each one's final answer, or a failure placeholder, under its name.
   */
  lemma FinalizeSpec(recs: seq<Rec>, lang: string, ask: Oracle)
    requires DistinctIdentities(recs)
    ensures forall n :: n in Finalize(recs, lang, ask) <==>
      exists i :: 0 <= i < |recs| && HasText(recs[i]) && recs[i].name == n
    ensures forall i :: 0 <= i < |recs| && HasText(recs[i]) ==>
      Finalize(recs, lang, ask)[recs[i].name] == FinalValue(recs[i], i, lang, ask)
  {
    forall i | 0 <= i < |recs| && HasText(recs[i])
      ensures Finalize(recs, lang, ask)[recs[i].name] == FinalValue(recs[i], i, lang, ask)
    {
      FinalizeFromValue(recs, 0, lang, ask, map[], i);
    }
  }

  /* ---------- choosing the result ---------- */

  /** `get_model`: the first record with id `mid`. */
  function FindModel(recs: seq<Rec>, mid: string): (r: Option<nat>)
    ensures r.Some? ==>
              r.value < |recs| && recs[r.value].id == mid
              && forall j :: 0 <= j < r.value ==> recs[j].id != mid
    ensures r.None? ==> forall j :: 0 <= j < |recs| ==> recs[j].id != mid
  {
    if recs == [] then None
    else if recs[0].id == mid then Some(0)
    else match FindModel(recs[1..], mid)
      case None => None
      case Some(j) => Some(j + 1)
  }

  function UnknownId(mid: string): string {
    "[Unknown model id: " + mid + "]"
  }

  function NoOutput(name: string): string {
    "[" + name + " produced no usable output]"
  }

  /** `pick_final`: the final answer, else the last answer, else the last reply, else a note. */
  function PickFinal(recs: seq<Rec>, finals: map<string, string>, mid: string): string {
    match FindModel(recs, mid)
    case None => UnknownId(mid)
    case Some(i) =>
      var m := recs[i];
      if m.name in finals then finals[m.name]
      else if m.lastAnswer != [] then m.lastAnswer
      else if m.lastStruct != [] then m.lastStruct
      else NoOutput(m.name)
  }

  /** The fallback order of `pick_final`, each step taken only when the earlier ones have nothing. */
  lemma PickFinalOrder(recs: seq<Rec>, finals: map<string, string>, mid: string)
    ensures (forall j :: 0 <= j < |recs| ==> recs[j].id != mid) ==> PickFinal(recs, finals, mid) == UnknownId(mid)
    ensures forall i :: 0 <= i < |recs| && recs[i].id == mid && (forall j :: 0 <= j < i ==> recs[j].id != mid) ==>
      var m, p := recs[i], PickFinal(recs, finals, mid);
      (m.name in finals ==> p == finals[m.name])
      && (m.name !in finals && m.lastAnswer != [] ==> p == m.lastAnswer)
      && (m.name !in finals && m.lastAnswer == [] && m.lastStruct != [] ==> p == m.lastStruct)
      && (m.name !in finals && !HasText(m) ==> p == NoOutput(m.name))
  {
    forall i | 0 <= i < |recs| && recs[i].id == mid && (forall j :: 0 <= j < i ==> recs[j].id != mid)
      ensures FindModel(recs, mid) == Some(i)
    {
      var r := FindModel(recs, mid);
      assert r.Some?;
    }
  }

  /**
   * After finalization, a record that said something is reported by its
   * final answer (or the failure placeholder); only a record that never
   * said anything gets the "no usable output" note.
   */
  lemma PickAfterFinalize(recs: seq<Rec>, lang: string, ask: Oracle, i: nat)
    requires i < |recs| && DistinctIdentities(recs)
    ensures var p := PickFinal(recs, Finalize(recs, lang, ask), recs[i].id);
      (HasText(recs[i]) ==> p == FinalValue(recs[i], i, lang, ask))
      && (!HasText(recs[i]) ==> p == NoOutput(recs[i].name))
  {
    FinalizeSpec(recs, lang, ask);
    assert FindModel(recs, recs[i].id) == Some(i);
  }

  /** `(get_model(models, mid) or {}).get("last_struct", "")`. */
  function StructOf(recs: seq<Rec>, mid: string): string {
    match FindModel(recs, mid)
    case None => []
    case Some(i) => recs[i].lastStruct
  }

  /* ---------- the whole run ---------- */

  /** The six strings `close_loop_ask` returns. */
  datatype Answers = Answers(
    geminiFinal: string, chatgptFinal: string, deepseekFinal: string,
    geminiStruct: string, chatgptStruct: string, deepseekStruct: string)

  /** The records when the debate is over. */
  function Debated(question: string, maxLoops: int, ask: Oracle): LoopResult {
    DebateLoop(InitialRound(Registry, question, ask), 0, maxLoops, ask)
  }

  /** What `close_loop_ask` returns for the records left by the debate. */
  function Report(recs: seq<Rec>, lang: string, ask: Oracle): Answers {
    var finals := Finalize(recs, lang, ask);
    Answers(
      PickFinal(recs, finals, "gemini"), PickFinal(recs, finals, "chatgpt"), PickFinal(recs, finals, "deepseek"),
      StructOf(recs, "gemini"), StructOf(recs, "chatgpt"), StructOf(recs, "deepseek"))
  }

  function Run(question: string, maxLoops: int, lang: string, ask: Oracle): Answers {
    Report(Debated(question, maxLoops, ask).recs, lang, ask)
  }

  /** The debate never changes who the participants are: ids and names stay distinct. */
  lemma DebatedDistinct(question: string, maxLoops: int, ask: Oracle)
    ensures DistinctIdentities(Debated(question, maxLoops, ask).recs)
  {
    RegistryDistinct();
    var r0 := InitialRound(Registry, question, ask);
    assert SameIdentities(Registry, r0);
  }
}
