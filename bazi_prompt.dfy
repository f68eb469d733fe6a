/**
 * The two computations of `generate_prompt` (bazi.py:370-468) that work on
 * the chart rather than on the calendar library: the visible Five-Element
 * count over the eight characters (bazi.py:414-416) and the split of the
 * relation notes into a stem half and a branch half (bazi.py:429-432).
 */
module BaziPrompt {
  import opened Maybe
  import opened Text
  import opened BaziTables
  import opened BaziRelations

  /** `[c for p in pillars.values() for c in p]`: stem then branch of each pillar, in dict order. */
  function AllChars(ps: seq<Pillar>): (r: seq<char>)
    ensures |r| == 2 * |ps|
    ensures forall k :: 0 <= k < |ps| ==> r[2 * k] == ps[k].gan && r[2 * k + 1] == ps[k].zhi
  {
    if ps == [] then []
    else
      var rest := AllChars(ps[1..]);
      assert forall k :: 1 <= k < |ps| ==> ps[k] == ps[1..][k - 1];
      [ps[0].gan, ps[0].zhi] + rest
  }

  /**
   * `self.gan_wuxing.get(c, self.zhi_wuxing.get(c))`: the stem table
   * first, then the branch table, and `None` for a character in neither.
   */
  function ElementOf(c: char): Option<char> {
    if c in GanWuxing then Some(GanWuxing[c])
    else if c in ZhiWuxing then Some(ZhiWuxing[c])
    else None
  }

  /** `wuxing_list` */
  function WuxingList(ps: seq<Pillar>): (r: seq<Option<char>>)
    ensures |r| == 2 * |ps|
  {
    var chars := AllChars(ps);
    seq(|chars|, i requires 0 <= i < |chars| => ElementOf(chars[i]))
  }

  /** `xs.count(x)` */
  function Count(xs: seq<Option<char>>, x: Option<char>): (r: nat)
    ensures r <= |xs|
  {
    if xs == [] then 0
    else Count(xs[..|xs| - 1], x) + (if xs[|xs| - 1] == x then 1 else 0)
  }

  /** `wuxing_count`: for each of the five elements, how many of the eight characters belong to it. */
  function WuxingCount(ps: seq<Pillar>): map<char, nat> {
    var list := WuxingList(ps);
    map e | e in Elements :: Count(list, Some(e))
  }

  /** The five counts added up, in the order the prompt lists them. */
  function CountTotal(m: map<char, nat>): nat
    requires forall e :: e in Elements ==> e in m
  {
    m['金'] + m['木'] + m['水'] + m['火'] + m['土']
  }

  /** Every stem and every branch of the tables belongs to one of the five elements. */
  lemma ElementOfKnown(c: char)
    requires c in GanWuxing || c in ZhiWuxing
    ensures ElementOf(c).Some? && ElementOf(c).value in Elements
  {
  }

  /**
   * Counting each of the five elements and the characters without one
   * accounts for every entry exactly once.
   */
  lemma {:induction false} CountsPartition(xs: seq<Option<char>>)
    requires forall k :: 0 <= k < |xs| ==> xs[k].None? || xs[k].value in Elements
    ensures Count(xs, Some('金')) + Count(xs, Some('木')) + Count(xs, Some('水'))
      + Count(xs, Some('火')) + Count(xs, Some('土')) + Count(xs, None) == |xs|
  {
    if xs != [] {
      CountsPartition(xs[..|xs| - 1]);
    }
  }

  /**
   * With every stem and branch in the tables, the five counts add up to the
   * number of characters: eight for a four-pillar chart.
   */
  lemma WuxingCountTotal(ps: seq<Pillar>)
    requires forall k :: 0 <= k < |ps| ==> ps[k].gan in GanWuxing && ps[k].zhi in ZhiWuxing
    ensures CountTotal(WuxingCount(ps)) == 2 * |ps|
  {
    var chars := AllChars(ps);
    var list := WuxingList(ps);
    forall i | 0 <= i < |list| ensures list[i].Some? && list[i].value in Elements {
      var k := i / 2;
      assert k < |ps|;
      if i == 2 * k {
        assert chars[i] == ps[k].gan;
      } else {
        assert i == 2 * k + 1 && chars[i] == ps[k].zhi;
      }
      ElementOfKnown(chars[i]);
    }
    CountsPartition(list);
    assert Count(list, None) == 0 by {
      NoneNotCounted(list);
    }
  }

  /** A list with no `None` entry counts none. */
  lemma {:induction false} NoneNotCounted(xs: seq<Option<char>>)
    requires forall k :: 0 <= k < |xs| ==> xs[k].Some?
    ensures Count(xs, None) == 0
  {
    if xs != [] {
      NoneNotCounted(xs[..|xs| - 1]);
    }
  }

  /** `[r for r in notes if pat in r]` */
  function Filter(notes: seq<string>, pat: string): (r: seq<string>)
    ensures forall n :: n in r <==> n in notes && Contains(n, pat)
    ensures |r| <= |notes|
  {
    if notes == [] then []
    else
      var init := Filter(notes[..|notes| - 1], pat);
      var last := notes[|notes| - 1];
      assert notes == notes[..|notes| - 1] + [last];
      init + (if Contains(last, pat) then [last] else [])
  }

  /** `gan_relations` */
  function GanRelations(notes: seq<string>): seq<string> {
    Filter(notes, "天干")
  }

  /** `zhi_relations` */
  function ZhiRelations(notes: seq<string>): seq<string> {
    Filter(notes, "地支")
  }

  /** `gan_relations_str` and `zhi_relations_str`: the notes one per line, or the fallback text. */
  function RelationsText(relations: seq<string>, fallback: string): string {
    if relations != [] then Join("\n", relations) else fallback
  }

  /** A note that starts with 天干 or 地支 contains it, so the filters keep it. */
  lemma TagsFound()
    ensures forall n :: StemNote(n) ==> Contains(n, "天干")
    ensures forall n :: BranchNote(n) ==> Contains(n, "地支")
  {
  }

  /** No note of the analysis falls through the split: each lands in the stem half, the branch half, or both. */
  lemma SplitCoversNotes(ps: seq<Pillar>, notes: seq<string>)
    requires StemsKnown(ps)
    requires forall n :: n in notes <==> n in Messages(ps)
    ensures forall n :: n in notes ==> n in GanRelations(notes) || n in ZhiRelations(notes)
  {
    MessagesTagged(ps);
    TagsFound();
  }

  /** The notes of the stem loop all land in the stem half. */
  lemma StemNotesToStemHalf(ps: seq<Pillar>, notes: seq<string>)
    requires StemsKnown(ps)
    requires forall n :: n in notes <==> n in Messages(ps)
    ensures forall n :: n in Rows(ps, StemPair, |ps|) ==> n in GanRelations(notes)
  {
    MessagesTagged(ps);
    TagsFound();
  }

  /** The notes of the branch loop and the three-branch patterns all land in the branch half. */
  lemma BranchNotesToBranchHalf(ps: seq<Pillar>, notes: seq<string>)
    requires StemsKnown(ps)
    requires forall n :: n in notes <==> n in Messages(ps)
    ensures forall n :: n in Rows(ps, BranchPair, |ps|) + PatternNotes(ps) ==> n in ZhiRelations(notes)
  {
    MessagesTagged(ps);
    TagsFound();
  }
}
