/**
 * `build_debate_prompt` and `build_final_prompt` (close_loop.py:214-325),
 * reduced to the choices they make. The fixed English wording of each block
 * is not modelled; which block is chosen, and which peers' answers are
 * shown in which order, is.
 */
module Prompts {
  import opened Records

  /** The ids whose prompt header announces web search tools. */
  const WebHeaderIds: set<string> := {"gemini", "chatgpt", "claude"}

  datatype Header = WebHeader | NoWebHeader

  /** One `[<name> - Latest Answer]` entry of the peer block. */
  datatype Peer = Peer(name: string, answer: string)

  /** The peer block, or the note that the target was the only one to answer. */
  datatype PeerBlock = PeerAnswers(peers: seq<Peer>) | SoleResponder

  datatype Guidance = SearchGuidance | NoBrowseGuidance

  datatype DebatePrompt = DebatePrompt(header: Header, peerBlock: PeerBlock, guidance: Guidance)

  /** The final prompt: whose report it is, its language line and the no-browse note. */
  datatype FinalPrompt = FinalPrompt(name: string, chinese: bool, noBrowseNote: bool)

  /** `[m for m in participants if m["id"] != mid]`. */
  function Others(mid: string, participants: seq<Rec>): (r: seq<Rec>)
    ensures |r| <= |participants|
    ensures forall m :: m in r <==> m in participants && m.id != mid
  {
    if participants == [] then []
    else
      var head := if participants[0].id != mid then [participants[0]] else [];
      head + Others(mid, participants[1..])
  }

  /** Others keeps the participants' order: filtering distributes over concatenation. */
  lemma {:induction false} OthersAppend(mid: string, a: seq<Rec>, b: seq<Rec>)
    ensures Others(mid, a + b) == Others(mid, a) + Others(mid, b)
  {
    if a != [] {
      assert (a + b)[1..] == a[1..] + b;
      OthersAppend(mid, a[1..], b);
    } else {
      assert a + b == b;
    }
  }

  function PeerOf(m: Rec): Peer {
    Peer(m.name, m.lastAnswer)
  }

  function PeerEntries(others: seq<Rec>): (r: seq<Peer>)
    ensures |r| == |others|
    ensures forall i :: 0 <= i < |others| ==> r[i] == PeerOf(others[i])
  {
    seq(|others|, i requires 0 <= i < |others| => PeerOf(others[i]))
  }

  function BuildDebatePrompt(target: Rec, participants: seq<Rec>): (p: DebatePrompt)
    ensures p.header == WebHeader <==> target.id in WebHeaderIds
    ensures p.guidance == NoBrowseGuidance <==> !target.supportsWeb
    ensures p.peerBlock == SoleResponder <==> Others(target.id, participants) == []
    ensures p.peerBlock.PeerAnswers? ==> p.peerBlock.peers == PeerEntries(Others(target.id, participants))
  {
    var others := Others(target.id, participants);
    DebatePrompt(
      if target.id in WebHeaderIds then WebHeader else NoWebHeader,
      if others != [] then PeerAnswers(PeerEntries(others)) else SoleResponder,
      if target.supportsWeb then SearchGuidance else NoBrowseGuidance)
  }

  /**
   * The target never sees an answer of its own id, and sees every other
   * participant's latest answer under that participant's name.
   */
  lemma DebatePromptPeers(target: Rec, participants: seq<Rec>, m: Rec)
    requires m in participants
    ensures var p := BuildDebatePrompt(target, participants);
      m.id != target.id <==> p.peerBlock.PeerAnswers? && exists k ::
        0 <= k < |p.peerBlock.peers| && Others(target.id, participants)[k] == m
        && p.peerBlock.peers[k] == Peer(m.name, m.lastAnswer)
  {
    var others := Others(target.id, participants);
    if m.id != target.id {
      assert m in others;
      var k :| 0 <= k < |others| && others[k] == m;
      assert BuildDebatePrompt(target, participants).peerBlock.peers[k] == Peer(m.name, m.lastAnswer);
    }
  }

  /**
   * With two participants, each one's peer block holds exactly the other's
   * answer; a participant alone gets the sole-responder note.
   */
  lemma DebatePromptPair(a: Rec, b: Rec)
    requires a.id != b.id
    ensures BuildDebatePrompt(a, [a, b]).peerBlock == PeerAnswers([Peer(b.name, b.lastAnswer)])
    ensures BuildDebatePrompt(b, [a, b]).peerBlock == PeerAnswers([Peer(a.name, a.lastAnswer)])
    ensures BuildDebatePrompt(a, [a]).peerBlock == SoleResponder
  {
    assert Others(a.id, [a, b]) == [b] by {
      assert [a, b][1..] == [b];
      assert Others(a.id, [b][1..]) == [];
    }
    assert Others(b.id, [a, b]) == [a] by {
      assert [a, b][1..] == [b];
      assert Others(b.id, [b][1..]) == [];
    }
  }

  /**
   * In the active registry the header (chosen by id) and the guidance
   * (chosen by the web flag) agree; they are decided separately, so a
   * record outside the id list that can search would get the no-web header
   * with the search guidance.
   */
  lemma RegistryHeaderMatchesGuidance(participants: seq<Rec>)
    ensures forall i :: 0 <= i < |Registry| ==>
      var p := BuildDebatePrompt(Registry[i], participants);
      (p.header == WebHeader <==> p.guidance == SearchGuidance)
    ensures var p := BuildDebatePrompt(Fresh("other", "Other", true), participants);
      p.header == NoWebHeader && p.guidance == SearchGuidance
  {
  }

  /** `build_final_prompt`: the language line is Chinese only for "zh". */
  function BuildFinalPrompt(target: Rec, lang: string): (p: FinalPrompt)
    ensures p.name == target.name
    ensures p.chinese <==> lang == "zh"
    ensures p.noBrowseNote <==> !target.supportsWeb
  {
    FinalPrompt(target.name, lang == "zh", !target.supportsWeb)
  }
}
