/**
 * The participant records `close_loop_ask` keeps for each model, as values,
 * and the fixed registry it starts from (close_loop.py:338-388).
 */
module Records {

  /**
   * One participant: its identity, whether its vendor client can search the
   * web, and the four fields the debate updates.
   */
  datatype Rec = Rec(
    id: string,
    name: string,
    supportsWeb: bool,
    down: bool,          // `temporarily_down`
    lastAnswer: string,  // `last_answer`
    lastStruct: string,  // `last_struct`: the raw reply of the last debate round, or a failure marker
    lastAgree: bool      // `last_agree`
  )

  /** A record as the registry creates it: up, with nothing said yet. */
  function Fresh(id: string, name: string, supportsWeb: bool): (r: Rec)
    ensures r.id == id && r.name == name && r.supportsWeb == supportsWeb
    ensures !r.down && r.lastAnswer == [] && r.lastStruct == [] && !r.lastAgree
  {
    Rec(id, name, supportsWeb, false, [], [], false)
  }

  /** The three active registry entries, in registry order. */
  const Registry: seq<Rec> := [
    Fresh("gemini", "Google Gemini", true),
    Fresh("chatgpt", "OpenAI ChatGPT", true),
    Fresh("deepseek", "DeepSeek", false)
  ]

  /** No two records share an id or a display name. */
  predicate DistinctIdentities(recs: seq<Rec>) {
    forall i, j :: 0 <= i < j < |recs| ==> recs[i].id != recs[j].id && recs[i].name != recs[j].name
  }

  /** Two snapshots describe the same participants in the same order. */
  predicate SameIdentities(a: seq<Rec>, b: seq<Rec>) {
    |a| == |b| && forall i :: 0 <= i < |a| ==>
      a[i].id == b[i].id && a[i].name == b[i].name && a[i].supportsWeb == b[i].supportsWeb
  }

  lemma RegistryDistinct()
    ensures DistinctIdentities(Registry)
    ensures forall i :: 0 <= i < |Registry| ==> Registry[i] == Fresh(Registry[i].id, Registry[i].name, Registry[i].supportsWeb)
  {
  }
}
