/**
 * Whole debates over the fixed registry (gemini, chatgpt, deepseek), for
 * every oracle that answers as each lemma's requires say.
 */
module Scenarios {
  import opened Records
  import opened Debate
  import ResponseParser

  /** Every model answers the question in the initial round. */
  predicate AllAnswerInitially(question: string, ask: Oracle) {
    forall i :: 0 <= i < |Registry| ==> ask(i, Initial(question, Registry[i].supportsWeb)).Ok?
  }

  /** Model `i` replies to every round-1 prompt with a non-empty reply that the parser reads as agreement. */
  ghost predicate AgreesInRoundOne(ask: Oracle, i: nat) {
    forall p, w :: ask(i, DebateCall(1, p, w)).Ok? && ask(i, DebateCall(1, p, w)).text != []
      && ResponseParser.ParseListResponse(ask(i, DebateCall(1, p, w)).text).0
  }

  /** Model `i` fails every round-1 call. */
  ghost predicate FailsInRoundOne(ask: Oracle, i: nat) {
    forall p, w :: ask(i, DebateCall(1, p, w)).Err?
  }

  lemma InitialAllUp(question: string, ask: Oracle)
    requires AllAnswerInitially(question, ask)
    ensures var r0 := InitialRound(Registry, question, ask);
      |r0| == 3 && Active(r0) == [0, 1, 2] && forall i :: 0 <= i < 3 ==> r0[i].lastStruct == []
  {
    var r0 := InitialRound(Registry, question, ask);
    assert !r0[0].down && !r0[1].down && !r0[2].down;
    var act := Active(r0);
    assert 0 in act && 1 in act && 2 in act;
    assert |act| == 3 by {
      assert forall a :: 0 <= a < |act| ==> act[a] < 3;
      assert forall a :: 0 <= a < |act| ==> a <= act[a];
      assert act[|act| - 1] >= |act| - 1;
    }
    assert act[0] == 0 && act[1] == 1 && act[2] == 2;
  }

  /** Three records of which the first two are counted and agree, and the third agrees or is down. */
  lemma ThreeAgree(r: seq<Rec>, thirdDown: bool)
    requires |r| == 3 && Counted(r[0]) && r[0].lastAgree && Counted(r[1]) && r[1].lastAgree
    requires if thirdDown then r[2].down else Counted(r[2]) && r[2].lastAgree
    ensures Consensus(r)
  {
    forall i | 0 <= i < |r| && Counted(r[i]) ensures r[i].lastAgree {
      assert i == 0 || i == 1 || i == 2;
    }
    ConsensusOfEach(r, 0);
  }

  /** All three answer and then agree in round 1: the debate stops after one round, by consensus. */
  lemma AllAgreeInRoundOne(question: string, maxLoops: int, ask: Oracle)
    requires maxLoops >= 1
    requires AllAnswerInitially(question, ask)
    requires AgreesInRoundOne(ask, 0) && AgreesInRoundOne(ask, 1) && AgreesInRoundOne(ask, 2)
    ensures var d := Debated(question, maxLoops, ask);
      d.reason == Agreed && d.loops == 1
  {
    var r0 := InitialRound(Registry, question, ask);
    var r1 := Round(r0, 1, ask);
    InitialAllUp(question, ask);
    assert Consensus(r1) by {
      RoundAgreeing(r0, 1, ask, 0);
      RoundAgreeing(r0, 1, ask, 1);
      RoundAgreeing(r0, 1, ask, 2);
      ThreeAgree(r1, false);
    }
    AgreedInFirstRound(r0, maxLoops, ask);
  }

  /**
   * Gemini and ChatGPT agree in round 1 while DeepSeek fails: the failure
   * does not block consensus, and DeepSeek is left down.
   */
  lemma OneFailsOthersAgree(question: string, maxLoops: int, ask: Oracle)
    requires maxLoops >= 1
    requires AllAnswerInitially(question, ask)
    requires AgreesInRoundOne(ask, 0) && AgreesInRoundOne(ask, 1) && FailsInRoundOne(ask, 2)
    ensures var d := Debated(question, maxLoops, ask);
      d.reason == Agreed && d.loops == 1 && d.recs[2].down && d.recs[2].lastStruct != []
  {
    var r0 := InitialRound(Registry, question, ask);
    var r1 := Round(r0, 1, ask);
    InitialAllUp(question, ask);
    RoundFailing(r0, 1, ask, 2);
    assert Consensus(r1) by {
      RoundAgreeing(r0, 1, ask, 0);
      RoundAgreeing(r0, 1, ask, 1);
      ThreeAgree(r1, true);
    }
    AgreedInFirstRound(r0, maxLoops, ask);
  }

  /**
   * Two of the three fail the initial round: fewer than two participants
   * are left, so the loop stops in its first iteration without a call.
   */
  lemma TwoFailInitially(question: string, maxLoops: int, ask: Oracle)
    requires maxLoops >= 1
    requires ask(1, Initial(question, true)).Err? && ask(2, Initial(question, false)).Err?
    ensures var d := Debated(question, maxLoops, ask);
      d.reason == TooFew && d.loops == 1 && d.recs == InitialRound(Registry, question, ask)
  {
    var r0 := InitialRound(Registry, question, ask);
    assert r0[1].down && r0[2].down;
    assert ActiveFrom(r0, 3) == [];
    assert ActiveFrom(r0, 2) == [];
    assert ActiveFrom(r0, 1) == [];
    assert |Active(r0)| <= 1;
    TooFewStopsAtOnce(r0, 0, maxLoops, ask);
  }
}
