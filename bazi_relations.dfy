/**
 * What `check_wuxing_ke`, `check_an_he` and `analyze_detailed_relations`
 * (bazi.py:218-368) compute, as functions of the pillars, and what the notes
 * they produce say. The methods of module BaziAnalysis are proved to compute
 * exactly these.
 */
module BaziRelations {
  import opened Maybe
  import opened Text
  import opened Ordering
  import opened BaziTables

  /** One pillar of the chart: its position label (年, 月, 日, 时) and its stem and branch. */
  datatype Pillar = Pillar(loc: string, gan: char, zhi: char)

  /**
   * The stem lookup `check_wuxing_ke` does raises a KeyError for a stem
   * outside the table; the analysis reaches it for every pair of pillars,
   * so with two pillars or more every stem must be known.
   */
  predicate StemsKnown(ps: seq<Pillar>) {
    |ps| < 2 || forall k :: 0 <= k < |ps| ==> ps[k].gan in GanWuxing
  }

  /* ---------- check_wuxing_ke ---------- */

  /**
   * `check_wuxing_ke` (bazi.py:218-225): a message naming the overcoming
   * stem first when the two stems' elements stand in the 克 relation, in
   * either order.
   */
  function CheckWuxingKe(g1: char, g2: char): (r: Option<string>)
    requires g1 in GanWuxing && g2 in GanWuxing
    ensures r.Some? <==> (GanWuxing[g1], GanWuxing[g2]) in Ke || (GanWuxing[g2], GanWuxing[g1]) in Ke
    ensures (GanWuxing[g1], GanWuxing[g2]) in Ke ==> r == Some([g1, g2] + "相克")
    ensures (GanWuxing[g2], GanWuxing[g1]) in Ke ==> r == Some([g2, g1] + "相克")
  {
    KeIrreflexiveAsymmetric();
    var w1, w2 := GanWuxing[g1], GanWuxing[g2];
    if (w1, w2) in Ke then Some([g1, g2] + "相克")
    else if (w2, w1) in Ke then Some([g2, g1] + "相克")
    else None
  }

  /** Stems of the same element never overcome each other. */
  lemma SameElementNoKe(g1: char, g2: char)
    requires g1 in GanWuxing && g2 in GanWuxing && GanWuxing[g1] == GanWuxing[g2]
    ensures CheckWuxingKe(g1, g2) == None
  {
    KeIrreflexiveAsymmetric();
  }

  /* ---------- check_an_he ---------- */

  /** `tuple(sorted([s1, s2])) in self._gan_he_canon` */
  predicate HeCanon(s1: char, s2: char) {
    Sorted2(s1, s2) in GanHeCanon()
  }

  /** The canonical-pair test is "the two stems are a 五合 pair, in either order". */
  lemma HeCanonIff(s1: char, s2: char)
    ensures HeCanon(s1, s2) <==> exists k :: 0 <= k < |GanHe| && (GanHe[k] == (s1, s2) || GanHe[k] == (s2, s1))
  {
    if HeCanon(s1, s2) {
      var p :| p in GanHe && Sorted2(p.0, p.1) == Sorted2(s1, s2);
      Sorted2Same(s1, s2, p.0, p.1);
      var k :| 0 <= k < |GanHe| && GanHe[k] == p;
    }
    if exists k :: 0 <= k < |GanHe| && (GanHe[k] == (s1, s2) || GanHe[k] == (s2, s1)) {
      var k :| 0 <= k < |GanHe| && (GanHe[k] == (s1, s2) || GanHe[k] == (s2, s1));
      Sorted2Same(s1, s2, GanHe[k].0, GanHe[k].1);
      assert Sorted2(GanHe[k].0, GanHe[k].1) in GanHeCanon();
    }
  }

  /** `self.hidden_stems.get(zhi, [])` */
  function StemsOf(z: char): seq<char> {
    if z in HiddenStems then HiddenStems[z] else []
  }

  /** The `found` entries the inner loop adds for hidden stem `s1`. */
  function AnHeRow(s1: char, stems2: seq<char>, canon: set<(char, char)>): seq<string> {
    if stems2 == [] then []
    else
      var s2 := stems2[|stems2| - 1];
      AnHeRow(s1, stems2[..|stems2| - 1], canon) + (if Sorted2(s1, s2) in canon then [[s1, s2] + "合"] else [])
  }

  /** `found` after both loops of `check_an_he`. */
  function AnHeFound(stems1: seq<char>, stems2: seq<char>, canon: set<(char, char)>): seq<string> {
    if stems1 == [] then []
    else AnHeFound(stems1[..|stems1| - 1], stems2, canon) + AnHeRow(stems1[|stems1| - 1], stems2, canon)
  }

  /** Some stem of `stems2` makes a canonical pair with `s1`. */
  predicate HasPartner(s1: char, stems2: seq<char>, canon: set<(char, char)>) {
    exists j :: 0 <= j < |stems2| && Sorted2(s1, stems2[j]) in canon
  }

  /** The inner loop finds something exactly when `s1` has a 五合 partner among `stems2`. */
  lemma {:induction false} AnHeRowFinds(s1: char, stems2: seq<char>, canon: set<(char, char)>)
    ensures AnHeRow(s1, stems2, canon) != [] <==> HasPartner(s1, stems2, canon)
  {
    if stems2 != [] {
      var init := stems2[..|stems2| - 1];
      var last := |stems2| - 1;
      AnHeRowFinds(s1, init, canon);
      if AnHeRow(s1, stems2, canon) != [] {
        if AnHeRow(s1, init, canon) != [] {
          var j :| 0 <= j < |init| && Sorted2(s1, init[j]) in canon;
          assert stems2[j] == init[j];
        } else {
          assert Sorted2(s1, stems2[last]) in canon;
        }
      } else {
        forall j | 0 <= j < |stems2| ensures Sorted2(s1, stems2[j]) !in canon {
          if j < last {
            assert stems2[j] == init[j];
          }
        }
      }
    }
  }

  /** Each entry the inner loop appends is `s1`, a partner from `stems2`, and 合. */
  lemma {:induction false} AnHeRowEntries(s1: char, stems2: seq<char>, canon: set<(char, char)>)
    ensures forall f :: f in AnHeRow(s1, stems2, canon) ==>
      exists j :: 0 <= j < |stems2| && Sorted2(s1, stems2[j]) in canon && f == [s1, stems2[j]] + "合"
  {
    if stems2 != [] {
      var init := stems2[..|stems2| - 1];
      AnHeRowEntries(s1, init, canon);
      forall f | f in AnHeRow(s1, init, canon)
        ensures exists j :: 0 <= j < |stems2| && Sorted2(s1, stems2[j]) in canon && f == [s1, stems2[j]] + "合"
      {
        var j :| 0 <= j < |init| && Sorted2(s1, init[j]) in canon && f == [s1, init[j]] + "合";
        assert stems2[j] == init[j];
      }
    }
  }

  /** `found` is non-empty exactly when some hidden stem of the first list has a partner in the second. */
  lemma {:induction false} AnHeFoundFinds(stems1: seq<char>, stems2: seq<char>, canon: set<(char, char)>)
    ensures AnHeFound(stems1, stems2, canon) != [] <==>
      exists i :: 0 <= i < |stems1| && HasPartner(stems1[i], stems2, canon)
  {
    if stems1 != [] {
      var init := stems1[..|stems1| - 1];
      var last := |stems1| - 1;
      AnHeFoundFinds(init, stems2, canon);
      AnHeRowFinds(stems1[last], stems2, canon);
      if AnHeFound(init, stems2, canon) != [] {
        var i :| 0 <= i < |init| && HasPartner(init[i], stems2, canon);
        assert stems1[i] == init[i];
      }
      if exists i :: 0 <= i < |stems1| && HasPartner(stems1[i], stems2, canon) {
        var i :| 0 <= i < |stems1| && HasPartner(stems1[i], stems2, canon);
        if i < last {
          assert stems1[i] == init[i];
        }
      }
    }
  }

  /** Each entry of `found` is a 五合 pair of hidden stems followed by 合. */
  lemma {:induction false} AnHeFoundEntries(stems1: seq<char>, stems2: seq<char>, canon: set<(char, char)>)
    ensures forall f :: f in AnHeFound(stems1, stems2, canon) ==>
      exists i, j :: 0 <= i < |stems1| && 0 <= j < |stems2| && Sorted2(stems1[i], stems2[j]) in canon
        && f == [stems1[i], stems2[j]] + "合"
  {
    if stems1 != [] {
      var init := stems1[..|stems1| - 1];
      var last := |stems1| - 1;
      var before, row := AnHeFound(init, stems2, canon), AnHeRow(stems1[last], stems2, canon);
      AnHeFoundEntries(init, stems2, canon);
      AnHeRowEntries(stems1[last], stems2, canon);
      assert AnHeFound(stems1, stems2, canon) == before + row;
      forall f | f in before + row
        ensures exists i, j ::
          0 <= i < |stems1| && 0 <= j < |stems2| && Sorted2(stems1[i], stems2[j]) in canon
          && f == [stems1[i], stems2[j]] + "合"
      {
        if f in before {
          var i, j :| 0 <= i < |init| && 0 <= j < |stems2| && Sorted2(init[i], stems2[j]) in canon
            && f == [init[i], stems2[j]] + "合";
          assert stems1[i] == init[i];
        } else {
          assert f in row;
          var j :| 0 <= j < |stems2| && Sorted2(stems1[last], stems2[j]) in canon && f == [stems1[last], stems2[j]] + "合";
          assert 0 <= last < |stems1|;
        }
      }
    }
  }

  /** `check_an_he` (bazi.py:227-245). */
  function AnHe(z1: char, z2: char): Option<string> {
    var found := AnHeFound(StemsOf(z1), StemsOf(z2), GanHeCanon());
    if found != [] then Some("暗合(藏干" + Join(",", found) + ")") else None
  }

  /**
   * A 暗合 note exactly when some hidden stem of each branch make a 五合
   * pair; a branch outside the table has no hidden stems and gives none.
   */
  lemma AnHeIff(z1: char, z2: char)
    ensures AnHe(z1, z2).Some? <==> exists s1, s2 ::
      s1 in StemsOf(z1) && s2 in StemsOf(z2)
      && exists k :: 0 <= k < |GanHe| && (GanHe[k] == (s1, s2) || GanHe[k] == (s2, s1))
    ensures z1 !in HiddenStems || z2 !in HiddenStems ==> AnHe(z1, z2) == None
  {
    var st1, st2 := StemsOf(z1), StemsOf(z2);
    AnHeFoundFinds(st1, st2, GanHeCanon());
    if AnHe(z1, z2).Some? {
      var i :| 0 <= i < |st1| && HasPartner(st1[i], st2, GanHeCanon());
      var j :| 0 <= j < |st2| && HeCanon(st1[i], st2[j]);
      HeCanonIff(st1[i], st2[j]);
      assert st1[i] in st1 && st2[j] in st2;
    }
    if exists s1, s2 ::
        s1 in st1 && s2 in st2 && exists k :: 0 <= k < |GanHe| && (GanHe[k] == (s1, s2) || GanHe[k] == (s2, s1))
    {
      var s1, s2 :| s1 in st1 && s2 in st2
        && exists k :: 0 <= k < |GanHe| && (GanHe[k] == (s1, s2) || GanHe[k] == (s2, s1));
      HeCanonIff(s1, s2);
      var i :| 0 <= i < |st1| && st1[i] == s1;
      var j :| 0 <= j < |st2| && st2[j] == s2;
      assert HasPartner(st1[i], st2, GanHeCanon());
    }
  }

  /* ---------- stem pairs ---------- */

  /** The ` (loc1-loc2)` tail of a pair's note. */
  function Span(loc1: string, loc2: string): string {
    " (" + loc1 + "-" + loc2 + ")"
  }

  /** The notes the 冲 loop appends: one for each clash pair equal to the stems' sorted pair. */
  function ChongNotes(g1: char, g2: char, pairs: seq<(char, char)>, span: string): seq<string> {
    if pairs == [] then []
    else
      var p := pairs[|pairs| - 1];
      ChongNotes(g1, g2, pairs[..|pairs| - 1], span)
      + (if Sorted2(g1, g2) == Sorted2(p.0, p.1) then ["天干相冲" + span] else [])
  }

  /** `self.gan_he_hua.get(tuple(he_pair), "")` */
  function Hua(p: (char, char)): string {
    if p in GanHeHua then [GanHeHua[p]] else ""
  }

  /** The notes the 合 loop appends: one for each combination equal to the stems' sorted pair. */
  function HeNotes(g1: char, g2: char, pairs: seq<(char, char)>, span: string): seq<string> {
    if pairs == [] then []
    else
      var p := pairs[|pairs| - 1];
      HeNotes(g1, g2, pairs[..|pairs| - 1], span)
      + (if Sorted2(g1, g2) == Sorted2(p.0, p.1) then ["天干五合化" + Hua(p) + span] else [])
  }

  /** The 冲 loop appends a note exactly when some listed pair is the stems' pair, and every note is the clash note. */
  lemma {:induction false} ChongNotesSpec(g1: char, g2: char, pairs: seq<(char, char)>, span: string)
    ensures forall n :: n in ChongNotes(g1, g2, pairs, span) ==> n == "天干相冲" + span
    ensures ChongNotes(g1, g2, pairs, span) != [] <==>
      exists k :: 0 <= k < |pairs| && Sorted2(g1, g2) == Sorted2(pairs[k].0, pairs[k].1)
  {
    if pairs != [] {
      var init := pairs[..|pairs| - 1];
      ChongNotesSpec(g1, g2, init, span);
      assert forall k :: 0 <= k < |init| ==> init[k] == pairs[k];
    }
  }

  /** The 五合 loop appends a note exactly when some listed pair is the stems' pair, and each note names that pair's element. */
  lemma {:induction false} HeNotesSpec(g1: char, g2: char, pairs: seq<(char, char)>, span: string)
    ensures forall n :: n in HeNotes(g1, g2, pairs, span) ==>
      exists k :: 0 <= k < |pairs| && Sorted2(g1, g2) == Sorted2(pairs[k].0, pairs[k].1)
        && n == "天干五合化" + Hua(pairs[k]) + span
    ensures HeNotes(g1, g2, pairs, span) != [] <==>
      exists k :: 0 <= k < |pairs| && Sorted2(g1, g2) == Sorted2(pairs[k].0, pairs[k].1)
  {
    if pairs != [] {
      var init := pairs[..|pairs| - 1];
      HeNotesSpec(g1, g2, init, span);
      assert forall k :: 0 <= k < |init| ==> init[k] == pairs[k];
    }
  }

  /**
   * The notes for two stems, given whether `check_wuxing_ke` finds them in
   * the 克 relation: clashes, then combinations, then the 克 hint when
   * neither loop set `relation_found` (bazi.py:272-291).
   */
  function StemNotes(g1: char, g2: char, span: string, ke: bool): seq<string> {
    var chong := ChongNotes(g1, g2, GanChong, span);
    var he := HeNotes(g1, g2, GanHe, span);
    chong + he + (if chong == [] && he == [] && ke then ["天干" + span] else [])
  }

  /** The notes for the stem pair of pillars `p` and `q` (bazi.py:268-291). */
  function StemPair(p: Pillar, q: Pillar): seq<string>
    requires p.gan in GanWuxing && q.gan in GanWuxing
  {
    StemNotes(p.gan, q.gan, Span(p.loc, q.loc), CheckWuxingKe(p.gan, q.gan).Some?)
  }

  /** The stems form a 冲 pair. */
  predicate StemsClash(g1: char, g2: char) {
    exists k :: 0 <= k < |GanChong| && Sorted2(g1, g2) == Sorted2(GanChong[k].0, GanChong[k].1)
  }

  /** The stems form a 五合 pair. */
  predicate StemsCombine(g1: char, g2: char) {
    exists k :: 0 <= k < |GanHe| && Sorted2(g1, g2) == Sorted2(GanHe[k].0, GanHe[k].1)
  }

  /** No stem pair both clashes and combines. */
  lemma StemRelationsExclusive(g1: char, g2: char)
    ensures !(StemsClash(g1, g2) && StemsCombine(g1, g2))
  {
    forall k, l | 0 <= k < |GanChong| && 0 <= l < |GanHe|
      ensures Sorted2(GanChong[k].0, GanChong[k].1) != Sorted2(GanHe[l].0, GanHe[l].1)
    {
      assert k == 0 || k == 1 || k == 2 || k == 3;
    }
  }

  /** Each stem pair matches at most one entry of either table. */
  lemma StemTablesUnambiguous()
    ensures Unambiguous(GanChong) && Unambiguous(GanHe)
  {
  }

  /** No two entries of the list are the same unordered pair. */
  predicate Unambiguous(pairs: seq<(char, char)>) {
    forall k, l :: 0 <= k < l < |pairs| ==> Sorted2(pairs[k].0, pairs[k].1) != Sorted2(pairs[l].0, pairs[l].1)
  }

  /** Against a list with no repeated pair, each loop appends at most one note. */
  lemma {:induction false} AtMostOneMatch(g1: char, g2: char, pairs: seq<(char, char)>, span: string)
    requires Unambiguous(pairs)
    ensures |ChongNotes(g1, g2, pairs, span)| <= 1
    ensures |HeNotes(g1, g2, pairs, span)| <= 1
  {
    if pairs != [] {
      var init := pairs[..|pairs| - 1];
      var p := pairs[|pairs| - 1];
      assert forall k :: 0 <= k < |init| ==> init[k] == pairs[k];
      AtMostOneMatch(g1, g2, init, span);
      ChongNotesSpec(g1, g2, init, span);
      HeNotesSpec(g1, g2, init, span);
      if Sorted2(g1, g2) == Sorted2(p.0, p.1) {
        assert forall k :: 0 <= k < |init| ==> Sorted2(init[k].0, init[k].1) != Sorted2(p.0, p.1);
      }
    }
  }

  /** The three parts of a stem pair's notes. */
  lemma StemPairParts(g1: char, g2: char, span: string)
    ensures var chong := ChongNotes(g1, g2, GanChong, span);
      var he := HeNotes(g1, g2, GanHe, span);
      (chong == [] || he == [])
      && (chong != [] <==> StemsClash(g1, g2)) && (he != [] <==> StemsCombine(g1, g2))
      && (chong != [] ==> chong == ["天干相冲" + span])
      && (he != [] ==>
            exists k :: 0 <= k < |GanHe| && Sorted2(g1, g2) == Sorted2(GanHe[k].0, GanHe[k].1)
              && he == ["天干五合化" + Hua(GanHe[k]) + span])
  {
    StemRelationsExclusive(g1, g2);
    StemTablesUnambiguous();
    ChongNotesSpec(g1, g2, GanChong, span);
    HeNotesSpec(g1, g2, GanChong, span);
    ChongNotesSpec(g1, g2, GanHe, span);
    HeNotesSpec(g1, g2, GanHe, span);
    SingleMatch(g1, g2, GanChong, span);
    SingleMatch(g1, g2, GanHe, span);
  }

  /** Against a list with no repeated pair, a loop that matched appended exactly one note. */
  lemma SingleMatch(g1: char, g2: char, pairs: seq<(char, char)>, span: string)
    requires Unambiguous(pairs)
    ensures var chong := ChongNotes(g1, g2, pairs, span);
      chong != [] ==> chong == ["天干相冲" + span]
    ensures var he := HeNotes(g1, g2, pairs, span);
      he != [] ==>
        exists k :: 0 <= k < |pairs| && Sorted2(g1, g2) == Sorted2(pairs[k].0, pairs[k].1)
          && he == ["天干五合化" + Hua(pairs[k]) + span]
  {
    var chong := ChongNotes(g1, g2, pairs, span);
    var he := HeNotes(g1, g2, pairs, span);
    AtMostOneMatch(g1, g2, pairs, span);
    ChongNotesSpec(g1, g2, pairs, span);
    HeNotesSpec(g1, g2, pairs, span);
    if chong != [] {
      assert chong[0] in chong;
    }
    if he != [] {
      assert he[0] in he;
    }
  }

  /** A stem pair gets at most one note: the clash or the combination when the stems form one. */
  lemma StemPairNotes(p: Pillar, q: Pillar)
    requires p.gan in GanWuxing && q.gan in GanWuxing
    ensures |StemPair(p, q)| <= 1
    ensures StemsClash(p.gan, q.gan) ==> StemPair(p, q) == ["天干相冲" + Span(p.loc, q.loc)]
    ensures StemsCombine(p.gan, q.gan) ==>
      exists k :: 0 <= k < |GanHe| && Sorted2(p.gan, q.gan) == Sorted2(GanHe[k].0, GanHe[k].1)
        && StemPair(p, q) == ["天干五合化" + Hua(GanHe[k]) + Span(p.loc, q.loc)]
  {
    StemPairParts(p.gan, q.gan, Span(p.loc, q.loc));
  }

  /** The 克 hint `天干 (loc1-loc2)` appears only when the stems neither clash nor combine. */
  lemma KeOnlyWhenNoOtherRelation(p: Pillar, q: Pillar)
    requires p.gan in GanWuxing && q.gan in GanWuxing
    ensures ("天干" + Span(p.loc, q.loc)) in StemPair(p, q) <==>
      !StemsClash(p.gan, q.gan) && !StemsCombine(p.gan, q.gan) && CheckWuxingKe(p.gan, q.gan).Some?
  {
    KeHintAlone(p.gan, q.gan, Span(p.loc, q.loc), CheckWuxingKe(p.gan, q.gan).Some?);
  }

  lemma KeHintAlone(g1: char, g2: char, span: string, ke: bool)
    requires |span| > 0 && span[0] == ' '
    ensures ("天干" + span) in StemNotes(g1, g2, span, ke) <==> !StemsClash(g1, g2) && !StemsCombine(g1, g2) && ke
  {
    var chong := ChongNotes(g1, g2, GanChong, span);
    var he := HeNotes(g1, g2, GanHe, span);
    var note := "天干" + span;
    ChongNotesTagged(g1, g2, GanChong, span);
    HeNotesTagged(g1, g2, GanHe, span);
    ChongNotesSpec(g1, g2, GanChong, span);
    HeNotesSpec(g1, g2, GanChong, span);
    ChongNotesSpec(g1, g2, GanHe, span);
    HeNotesSpec(g1, g2, GanHe, span);
    assert note[2] == ' ';
    InOnePart(chong, he, if chong == [] && he == [] && ke then [note] else [], note);
  }

  /* ---------- branch pairs ---------- */

  /** The table-driven notes for a branch pair: 六合, 冲, 害 and 破 (bazi.py:303-313). */
  function TableNotes(pair: set<char>, span: string): seq<string> {
    (if pair in ZhiLiuHe then ["地支六合" + ZhiLiuHe[pair] + span] else [])
    + (if pair in ZhiLiuChong then ["地支相冲" + span] else [])
    + (if pair in ZhiHai then ["地支相害" + span] else [])
    + (if pair in ZhiPo then ["地支相破" + span] else [])
  }

  /** The 暗合 note for a branch pair, unless the pair is a 六合 (bazi.py:315-317). */
  function AnHeNotes(z1: char, z2: char, span: string): seq<string> {
    var anHe := AnHe(z1, z2);
    if anHe.Some? && {z1, z2} !in ZhiLiuHe then ["地支" + anHe.value + span] else []
  }

  /** The self-punishment note for a branch pair (bazi.py:319-320). */
  function SelfNotes(z1: char, z2: char, span: string): seq<string> {
    if z1 == z2 && z1 in SelfXing then ["地支自刑" + span] else []
  }

  /** The notes for the branch pair of pillars `p` and `q` (bazi.py:299-320). */
  function BranchPair(p: Pillar, q: Pillar): seq<string> {
    var span := Span(p.loc, q.loc);
    TableNotes({p.zhi, q.zhi}, span) + AnHeNotes(p.zhi, q.zhi, span) + SelfNotes(p.zhi, q.zhi, span)
  }

  /** Every table note has 六 or 相 as its third character. */
  lemma NotTableNote(pair: set<char>, span: string, note: string)
    requires |note| > 2 && note[2] != '六' && note[2] != '相'
    ensures note !in TableNotes(pair, span)
  {
  }

  /** Every 暗合 note has 暗 as its third character. */
  lemma NotAnHeNote(z1: char, z2: char, span: string, note: string)
    requires |note| > 2 && note[2] != '暗'
    ensures note !in AnHeNotes(z1, z2, span)
  {
  }

  /** A note missing from two parts of a list is in it exactly when it is in the remaining part. */
  lemma InOnePart(a: seq<string>, b: seq<string>, c: seq<string>, note: string)
    ensures note !in a && note !in b ==> (note in a + b + c <==> note in c)
    ensures note !in a && note !in c ==> (note in a + b + c <==> note in b)
  {
  }

  /** A 暗合 found between the hidden stems is reported only for a pair that is not a 六合. */
  lemma AnHeOnlyWithoutLiuHe(p: Pillar, q: Pillar)
    requires AnHe(p.zhi, q.zhi).Some?
    ensures ("地支" + AnHe(p.zhi, q.zhi).value + Span(p.loc, q.loc)) in BranchPair(p, q)
      <==> {p.zhi, q.zhi} !in ZhiLiuHe
  {
    var span := Span(p.loc, q.loc);
    var note := "地支" + AnHe(p.zhi, q.zhi).value + span;
    assert note[2] == '暗';
    NotTableNote({p.zhi, q.zhi}, span, note);
    InOnePart(TableNotes({p.zhi, q.zhi}, span), AnHeNotes(p.zhi, q.zhi, span), SelfNotes(p.zhi, q.zhi, span), note);
  }

  /** The self-punishment note appears exactly for two equal branches of the 自刑 list. */
  lemma SelfPunishmentIff(p: Pillar, q: Pillar)
    ensures ("地支自刑" + Span(p.loc, q.loc)) in BranchPair(p, q) <==> p.zhi == q.zhi && p.zhi in SelfXing
  {
    var span := Span(p.loc, q.loc);
    var note := "地支自刑" + span;
    assert note[2] == '自';
    NotTableNote({p.zhi, q.zhi}, span, note);
    NotAnHeNote(p.zhi, q.zhi, span, note);
    InOnePart(TableNotes({p.zhi, q.zhi}, span), AnHeNotes(p.zhi, q.zhi, span), SelfNotes(p.zhi, q.zhi, span), note);
  }

  /* ---------- the three-branch patterns ---------- */

  /** The 刑 notes for the set of branches present (bazi.py:323-334). */
  function XingNotes(present: set<char>): seq<string> {
    (if {'寅', '巳', '申'} <= present then ["地支【寅巳申】三刑俱全 (无恩之刑)"]
     else if '寅' in present && '巳' in present then ["地支【寅巳】相刑"]
     else if '巳' in present && '申' in present then ["地支【巳申】相刑"]
     else if '申' in present && '寅' in present then ["地支【寅申】相刑"]
     else [])
    + (if {'丑', '未', '戌'} <= present then ["地支【丑未戌】三刑俱全 (恃势之刑)"] else [])
  }

  /**
   * Of 寅, 巳 and 申 the notes name all three when all are present, and
   * otherwise the one pair present, if any; 丑未戌 is named only complete.
   */
  lemma XingChain(present: set<char>)
    ensures "地支【寅巳申】三刑俱全 (无恩之刑)" in XingNotes(present) <==> {'寅', '巳', '申'} <= present
    ensures "地支【寅巳】相刑" in XingNotes(present) <==> '寅' in present && '巳' in present && '申' !in present
    ensures "地支【巳申】相刑" in XingNotes(present) <==> '巳' in present && '申' in present && '寅' !in present
    ensures "地支【寅申】相刑" in XingNotes(present) <==> '申' in present && '寅' in present && '巳' !in present
    ensures "地支【丑未戌】三刑俱全 (恃势之刑)" in XingNotes(present) <==> {'丑', '未', '戌'} <= present
    ensures |XingNotes(present)| <= 2
  {
  }

  /**
   * The members of `group` found among the branches, in group order. The
   * source then applies `sorted(set(...), key=group.index)`, which leaves
   * this list as it is when the group has no repeated member (see
   * PresentDistinct).
   */
  function Present(group: seq<char>, branches: seq<char>): (r: seq<char>)
    ensures forall c :: c in r <==> c in group && c in branches
    ensures |r| <= |group|
  {
    if group == [] then []
    else
      var c := group[|group| - 1];
      assert group == group[..|group| - 1] + [c];
      Present(group[..|group| - 1], branches) + (if c in branches then [c] else [])
  }

  /** A group of three distinct members. */
  predicate Triple(group: seq<char>) {
    |group| == 3 && group[0] != group[1] && group[1] != group[2] && group[0] != group[2]
  }

  /** What `Present` keeps of a three-member group. */
  lemma PresentOfThree(group: seq<char>, branches: seq<char>)
    requires |group| == 3
    ensures Present(group, branches) ==
      (if group[0] in branches then [group[0]] else [])
      + (if group[1] in branches then [group[1]] else [])
      + (if group[2] in branches then [group[2]] else [])
  {
    var two := group[..2];
    var one := two[..1];
    assert one[..0] == [];
    assert Present(one, branches) == (if group[0] in branches then [group[0]] else []);
    assert Present(two, branches) == Present(one, branches) + (if group[1] in branches then [group[1]] else []);
  }

  /** For a group without repeats, the members found are distinct, so the sort-and-dedupe step changes nothing. */
  lemma PresentDistinct(group: seq<char>, branches: seq<char>)
    requires Triple(group)
    ensures var r := Present(group, branches);
      forall i, j :: 0 <= i < j < |r| ==> r[i] != r[j]
  {
    PresentOfThree(group, branches);
  }

  /** The 三合 note for one group (bazi.py:337-351). */
  function SanHeNote(title: string, group: seq<char>, branches: seq<char>): seq<string>
    requires |group| == 3
  {
    var found := Present(group, branches);
    if |found| == 3 then ["地支三合" + title + " (成局)"]
    else if |found| == 2 then
      if found == [group[0], group[1]] then ["地支半合" + title]
      else if found == [group[1], group[2]] then ["地支半合" + title]
      else if found == [group[0], group[2]] then ["地支拱合" + title + " (缺中神)"]
      else []
    else []
  }

  /**
   * A group yields one note once two of its members are present and none
   * before: 成局 with all three, 半合 when the middle one is among two, and
   * 拱合 when only the outer two are.
   */
  lemma SanHeForms(title: string, group: seq<char>, branches: seq<char>)
    requires Triple(group)
    ensures var found := Present(group, branches);
      && (|found| < 2 ==> SanHeNote(title, group, branches) == [])
      && (|found| == 3 <==> group[0] in branches && group[1] in branches && group[2] in branches)
      && (|found| == 3 ==> SanHeNote(title, group, branches) == ["地支三合" + title + " (成局)"])
      && (|found| == 2 && group[1] in branches ==> SanHeNote(title, group, branches) == ["地支半合" + title])
      && (|found| == 2 && group[1] !in branches ==> SanHeNote(title, group, branches) == ["地支拱合" + title + " (缺中神)"])
  {
    PresentCount(group, branches);
    SanHeByMembers(title, group, branches);
  }

  /** How many members of a three-member group are present. */
  lemma PresentCount(group: seq<char>, branches: seq<char>)
    requires |group| == 3
    ensures |Present(group, branches)| ==
      (if group[0] in branches then 1 else 0) + (if group[1] in branches then 1 else 0) + (if group[2] in branches then 1 else 0)
  {
    PresentOfThree(group, branches);
  }

  /** The 三合 note of a group, by which of its members are present. */
  lemma SanHeByMembers(title: string, group: seq<char>, branches: seq<char>)
    requires Triple(group)
    ensures SanHeNote(title, group, branches) ==
      var in0, in1, in2 := group[0] in branches, group[1] in branches, group[2] in branches;
      if in0 && in1 && in2 then ["地支三合" + title + " (成局)"]
      else if in1 && (in0 || in2) then ["地支半合" + title]
      else if in0 && in2 then ["地支拱合" + title + " (缺中神)"]
      else []
  {
    PresentOfThree(group, branches);
    var found := Present(group, branches);
    var in0, in1, in2 := group[0] in branches, group[1] in branches, group[2] in branches;
    if in0 && in1 && in2 {
      assert |found| == 3;
    } else if in0 && in1 {
      assert found == [group[0], group[1]];
    } else if in1 && in2 {
      assert found == [group[1], group[2]];
      assert found != [group[0], group[1]];
    } else if in0 && in2 {
      assert found == [group[0], group[2]];
      assert found != [group[0], group[1]] && found != [group[1], group[2]];
    } else {
      assert |found| < 2;
    }
  }

  /** `group.index(c)` */
  function IndexIn(group: seq<char>, c: char): (r: nat)
    requires c in group
    ensures r < |group| && group[r] == c
    ensures forall k :: 0 <= k < r ==> group[k] != c
  {
    if group[0] == c then 0 else 1 + IndexIn(group[1..], c)
  }

  /** The 三会 note for one group (bazi.py:354-365). */
  function SanHuiNote(title: string, group: seq<char>, branches: seq<char>): seq<string>
    requires |group| == 3
  {
    var present := Present(group, branches);
    if |present| == 3 then ["地支三会" + title + " (一方之气)"]
    else if |present| == 2 then
      assert present[0] in present && present[1] in present;
      var gap := IndexIn(group, present[0]) - IndexIn(group, present[1]);
      if gap == 2 || gap == -2 then ["地支拱会" + title] else ["地支半会" + title + " (同气)"]
    else []
  }

  /**
   * A 三会 group yields one note once two of its members are present and
   * none before: 一方之气 with all three, 半会 for two neighbours and 拱会
   * for the outer two.
   */
  lemma SanHuiForms(title: string, group: seq<char>, branches: seq<char>)
    requires Triple(group)
    ensures var present := Present(group, branches);
      && (|present| < 2 ==> SanHuiNote(title, group, branches) == [])
      && (|present| == 3 ==> SanHuiNote(title, group, branches) == ["地支三会" + title + " (一方之气)"])
      && (|present| == 2 && group[1] in branches ==> SanHuiNote(title, group, branches) == ["地支半会" + title + " (同气)"])
      && (|present| == 2 && group[1] !in branches ==> SanHuiNote(title, group, branches) == ["地支拱会" + title])
  {
    PresentOfThree(group, branches);
    var present := Present(group, branches);
    if |present| == 2 {
      if group[1] !in branches {
        assert present == [group[0], group[2]];
        assert IndexIn(group, group[0]) == 0;
        assert IndexIn(group, group[2]) == 2;
      } else if group[0] in branches {
        assert present == [group[0], group[1]];
        assert IndexIn(group, group[0]) == 0;
        assert IndexIn(group, group[1]) == 1;
      } else {
        assert present == [group[1], group[2]];
        assert IndexIn(group, group[1]) == 1;
        assert IndexIn(group, group[2]) == 2;
      }
    }
  }

  /* ---------- the whole analysis ---------- */

  /** The pair-note function can be applied to every pair of pillars. */
  ghost predicate Applicable(ps: seq<Pillar>, pair: (Pillar, Pillar) --> seq<string>) {
    forall a, b :: 0 <= a < b < |ps| ==> pair.requires(ps[a], ps[b])
  }

  /** The notes of pillar `i` with pillars `i+1 .. j-1`, in the order the inner loop appends them. */
  function Row(ps: seq<Pillar>, pair: (Pillar, Pillar) --> seq<string>, i: nat, j: nat): seq<string>
    requires i < j <= |ps| && Applicable(ps, pair)
    decreases j
  {
    if j == i + 1 then [] else Row(ps, pair, i, j - 1) + pair(ps[i], ps[j - 1])
  }

  /** One more step of the inner loop appends the notes of the next pair. */
  lemma RowStep(ps: seq<Pillar>, pair: (Pillar, Pillar) --> seq<string>, i: nat, j: nat)
    requires i < j < |ps| && Applicable(ps, pair)
    ensures Row(ps, pair, i, j + 1) == Row(ps, pair, i, j) + pair(ps[i], ps[j])
  {
  }

  /**
   * The inner loop for pillar `i` has reached pillar `j` with `row`. Stated
   * through this predicate, a loop invariant exposes one level of `Row`
   * rather than two.
   */
  ghost predicate RowSoFar(ps: seq<Pillar>, pair: (Pillar, Pillar) --> seq<string>, i: nat, j: nat, row: seq<string>)
    requires i < j <= |ps| && Applicable(ps, pair)
  {
    row == Row(ps, pair, i, j)
  }

  /** Before the inner loop for pillar `i`, the row is empty. */
  lemma RowSoFarStart(ps: seq<Pillar>, pair: (Pillar, Pillar) --> seq<string>, i: nat)
    requires i < |ps| && Applicable(ps, pair)
    ensures RowSoFar(ps, pair, i, i + 1, [])
  {
  }

  /** The outer loop has finished `n` rows with `messages`. */
  ghost predicate RowsSoFar(ps: seq<Pillar>, pair: (Pillar, Pillar) --> seq<string>, n: nat, messages: seq<string>)
    requires n <= |ps| && Applicable(ps, pair)
  {
    messages == Rows(ps, pair, n)
  }

  /** The stem row so far, extended by the notes of the next pair, is the next stem row. */
  lemma StemRowStep(ps: seq<Pillar>, i: nat, j: nat, row: seq<string>, notes: seq<string>)
    requires i < j < |ps| && Applicable(ps, StemPair)
    requires RowSoFar(ps, StemPair, i, j, row) && notes == StemPair(ps[i], ps[j])
    ensures RowSoFar(ps, StemPair, i, j + 1, row + notes)
  {
  }

  /** The branch row so far, extended by the notes of the next pair, is the next branch row. */
  lemma BranchRowStep(ps: seq<Pillar>, i: nat, j: nat, row: seq<string>, notes: seq<string>)
    requires i < j < |ps| && Applicable(ps, BranchPair)
    requires RowSoFar(ps, BranchPair, i, j, row) && notes == BranchPair(ps[i], ps[j])
    ensures RowSoFar(ps, BranchPair, i, j + 1, row + notes)
  {
  }

  /** The rows so far, extended by the next full row, are the rows one further. */
  lemma RowsSoFarStep(ps: seq<Pillar>, pair: (Pillar, Pillar) --> seq<string>, n: nat, messages: seq<string>, row: seq<string>)
    requires n < |ps| && Applicable(ps, pair)
    requires RowsSoFar(ps, pair, n, messages) && RowSoFar(ps, pair, n, |ps|, row)
    ensures RowsSoFar(ps, pair, n + 1, messages + row)
  {
  }

  /** One more step of the outer loop appends the next row. */
  lemma RowsStep(ps: seq<Pillar>, pair: (Pillar, Pillar) --> seq<string>, n: nat)
    requires n < |ps| && Applicable(ps, pair)
    ensures Rows(ps, pair, n + 1) == Rows(ps, pair, n) + Row(ps, pair, n, |ps|)
  {
  }

  /** The notes of the first `n` rows of a pairwise loop (bazi.py:266-267, 297-298). */
  function Rows(ps: seq<Pillar>, pair: (Pillar, Pillar) --> seq<string>, n: nat): seq<string>
    requires n <= |ps| && Applicable(ps, pair)
  {
    if n == 0 then [] else Rows(ps, pair, n - 1) + Row(ps, pair, n - 1, |ps|)
  }

  /** With every stem in the table, the stem notes apply to every pair. */
  lemma StemPairApplicable(ps: seq<Pillar>)
    requires StemsKnown(ps)
    ensures Applicable(ps, StemPair)
  {
  }

  /** The branch notes apply to every pair. */
  lemma BranchPairApplicable(ps: seq<Pillar>)
    ensures Applicable(ps, BranchPair)
  {
  }

  /** `zhi_list` */
  function ZhiList(ps: seq<Pillar>): (r: seq<char>)
    ensures |r| == |ps| && forall k :: 0 <= k < |ps| ==> r[k] == ps[k].zhi
  {
    seq(|ps|, k requires 0 <= k < |ps| => ps[k].zhi)
  }

  /** `set(zhi_list)` */
  function Branches(ps: seq<Pillar>): (r: set<char>)
    ensures forall z :: z in r <==> z in ZhiList(ps)
  {
    set k | 0 <= k < |ps| :: ps[k].zhi
  }

  /** A table of three-branch groups, each with three distinct members. */
  predicate Groups(groups: seq<(string, seq<char>)>) {
    forall k :: 0 <= k < |groups| ==> Triple(groups[k].1)
  }

  /** The 三合 notes of the groups, in table order (bazi.py:337-351). */
  function SanHeNotes(groups: seq<(string, seq<char>)>, branches: seq<char>): seq<string>
    requires Groups(groups)
  {
    if groups == [] then []
    else
      var g := groups[|groups| - 1];
      SanHeNotes(groups[..|groups| - 1], branches) + SanHeNote(g.0, g.1, branches)
  }

  /** The 三会 notes of the groups, in table order (bazi.py:354-365). */
  function SanHuiNotes(groups: seq<(string, seq<char>)>, branches: seq<char>): seq<string>
    requires Groups(groups)
  {
    if groups == [] then []
    else
      var g := groups[|groups| - 1];
      SanHuiNotes(groups[..|groups| - 1], branches) + SanHuiNote(g.0, g.1, branches)
  }

  /** Both group tables are tables of distinct triples. */
  lemma TablesAreGroups()
    ensures Groups(ZhiSanHe) && Groups(ZhiSanHui)
  {
  }

  /** The notes about the branches, after the pairwise ones. */
  function PatternNotes(ps: seq<Pillar>): seq<string> {
    TablesAreGroups();
    var branches := ZhiList(ps);
    XingNotes(Branches(ps)) + SanHeNotes(ZhiSanHe, branches) + SanHuiNotes(ZhiSanHui, branches)
  }

  /** `messages` before the final sort, in the order the source appends them. */
  function Messages(ps: seq<Pillar>): seq<string>
    requires StemsKnown(ps)
  {
    StemPairApplicable(ps);
    BranchPairApplicable(ps);
    Rows(ps, StemPair, |ps|) + Rows(ps, BranchPair, |ps|) + PatternNotes(ps)
  }

  /* ---------- what the notes are about ---------- */

  /** A note about stems: it starts with 天干. */
  predicate StemNote(n: string) {
    |n| >= 2 && n[0] == '天' && n[1] == '干'
  }

  /** A note about branches: it starts with 地支. */
  predicate BranchNote(n: string) {
    |n| >= 2 && n[0] == '地' && n[1] == '支'
  }

  /** Every note of the three lists satisfies `tag` when every note of each does. */
  lemma AllOfThree(a: seq<string>, b: seq<string>, c: seq<string>, tag: string -> bool)
    requires forall n :: n in a ==> tag(n)
    requires forall n :: n in b ==> tag(n)
    requires forall n :: n in c ==> tag(n)
    ensures forall n :: n in a + b + c ==> tag(n)
  {
  }

  lemma {:induction false} ChongNotesTagged(g1: char, g2: char, pairs: seq<(char, char)>, span: string)
    ensures forall n :: n in ChongNotes(g1, g2, pairs, span) ==> StemNote(n) && |n| > 2 && n[2] == '相'
  {
    if pairs != [] {
      ChongNotesTagged(g1, g2, pairs[..|pairs| - 1], span);
    }
  }

  lemma {:induction false} HeNotesTagged(g1: char, g2: char, pairs: seq<(char, char)>, span: string)
    ensures forall n :: n in HeNotes(g1, g2, pairs, span) ==> StemNote(n) && |n| > 2 && n[2] == '五'
  {
    if pairs != [] {
      HeNotesTagged(g1, g2, pairs[..|pairs| - 1], span);
    }
  }

  lemma StemNotesTagged(g1: char, g2: char, span: string, ke: bool)
    ensures forall n :: n in StemNotes(g1, g2, span, ke) ==> StemNote(n)
  {
    var chong := ChongNotes(g1, g2, GanChong, span);
    var he := HeNotes(g1, g2, GanHe, span);
    ChongNotesTagged(g1, g2, GanChong, span);
    HeNotesTagged(g1, g2, GanHe, span);
    AllOfThree(chong, he, if chong == [] && he == [] && ke then ["天干" + span] else [], StemNote);
  }

  lemma StemPairTagged(p: Pillar, q: Pillar)
    requires p.gan in GanWuxing && q.gan in GanWuxing
    ensures forall n :: n in StemPair(p, q) ==> StemNote(n)
  {
    StemNotesTagged(p.gan, q.gan, Span(p.loc, q.loc), CheckWuxingKe(p.gan, q.gan).Some?);
  }

  lemma TableNotesTagged(pair: set<char>, span: string)
    ensures forall n :: n in TableNotes(pair, span) ==> BranchNote(n)
  {
  }

  lemma BranchPairTagged(p: Pillar, q: Pillar)
    ensures forall n :: n in BranchPair(p, q) ==> BranchNote(n)
  {
    var span := Span(p.loc, q.loc);
    TableNotesTagged({p.zhi, q.zhi}, span);
    AnHeNotesTagged(p.zhi, q.zhi, span);
    SelfNotesTagged(p.zhi, q.zhi, span);
    AllOfThree(TableNotes({p.zhi, q.zhi}, span), AnHeNotes(p.zhi, q.zhi, span), SelfNotes(p.zhi, q.zhi, span), BranchNote);
  }

  lemma AnHeNotesTagged(z1: char, z2: char, span: string)
    ensures forall n :: n in AnHeNotes(z1, z2, span) ==> BranchNote(n)
  {
  }

  lemma SelfNotesTagged(z1: char, z2: char, span: string)
    ensures forall n :: n in SelfNotes(z1, z2, span) ==> BranchNote(n)
  {
  }

  /** Each row and the rows of a pairwise loop carry the tag every pair's notes carry. */
  lemma {:induction false} RowsTagged(ps: seq<Pillar>, pair: (Pillar, Pillar) --> seq<string>, n: nat, tag: string -> bool)
    requires n <= |ps| && Applicable(ps, pair)
    requires forall a, b :: 0 <= a < b < |ps| ==> forall m :: m in pair(ps[a], ps[b]) ==> tag(m)
    ensures forall m :: m in Rows(ps, pair, n) ==> tag(m)
  {
    if n > 0 {
      RowsTagged(ps, pair, n - 1, tag);
      RowTagged(ps, pair, n - 1, |ps|, tag);
    }
  }

  lemma {:induction false} RowTagged(ps: seq<Pillar>, pair: (Pillar, Pillar) --> seq<string>, i: nat, j: nat, tag: string -> bool)
    requires i < j <= |ps| && Applicable(ps, pair)
    requires forall a, b :: 0 <= a < b < |ps| ==> forall m :: m in pair(ps[a], ps[b]) ==> tag(m)
    ensures forall m :: m in Row(ps, pair, i, j) ==> tag(m)
    decreases j
  {
    if j > i + 1 {
      RowTagged(ps, pair, i, j - 1, tag);
      assert forall m :: m in pair(ps[i], ps[j - 1]) ==> tag(m);
    }
  }

  lemma SanHeNoteTagged(title: string, group: seq<char>, branches: seq<char>)
    requires |group| == 3
    ensures forall n :: n in SanHeNote(title, group, branches) ==> BranchNote(n)
  {
  }

  lemma SanHuiNoteTagged(title: string, group: seq<char>, branches: seq<char>)
    requires |group| == 3
    ensures forall n :: n in SanHuiNote(title, group, branches) ==> BranchNote(n)
  {
  }

  lemma {:induction false} GroupNotesTagged(groups: seq<(string, seq<char>)>, branches: seq<char>)
    requires Groups(groups)
    ensures forall n :: n in SanHeNotes(groups, branches) ==> BranchNote(n)
    ensures forall n :: n in SanHuiNotes(groups, branches) ==> BranchNote(n)
  {
    if groups != [] {
      var g := groups[|groups| - 1];
      GroupNotesTagged(groups[..|groups| - 1], branches);
      SanHeNoteTagged(g.0, g.1, branches);
      SanHuiNoteTagged(g.0, g.1, branches);
    }
  }

  lemma XingNotesTagged(present: set<char>)
    ensures forall n :: n in XingNotes(present) ==> BranchNote(n)
  {
  }

  lemma PatternNotesTagged(ps: seq<Pillar>)
    ensures forall n :: n in PatternNotes(ps) ==> BranchNote(n)
  {
    TablesAreGroups();
    XingNotesTagged(Branches(ps));
    GroupNotesTagged(ZhiSanHe, ZhiList(ps));
    GroupNotesTagged(ZhiSanHui, ZhiList(ps));
    AllOfThree(XingNotes(Branches(ps)), SanHeNotes(ZhiSanHe, ZhiList(ps)), SanHuiNotes(ZhiSanHui, ZhiList(ps)), BranchNote);
  }

  /**
   * The stem loop produces only 天干 notes and everything after it only
   * 地支 notes, so every note lands in at least one half of the prompt's
   * split.
   */
  lemma MessagesTagged(ps: seq<Pillar>)
    requires StemsKnown(ps)
    ensures Applicable(ps, StemPair) && Applicable(ps, BranchPair)
    ensures forall n :: n in Rows(ps, StemPair, |ps|) ==> StemNote(n)
    ensures forall n :: n in Rows(ps, BranchPair, |ps|) + PatternNotes(ps) ==> BranchNote(n)
    ensures forall n :: n in Messages(ps) ==> StemNote(n) || BranchNote(n)
  {
    StemPairApplicable(ps);
    BranchPairApplicable(ps);
    forall a, b | 0 <= a < b < |ps| ensures forall m :: m in StemPair(ps[a], ps[b]) ==> StemNote(m) {
      StemPairTagged(ps[a], ps[b]);
    }
    forall a, b | 0 <= a < b < |ps| ensures forall m :: m in BranchPair(ps[a], ps[b]) ==> BranchNote(m) {
      BranchPairTagged(ps[a], ps[b]);
    }
    RowsTagged(ps, StemPair, |ps|, StemNote);
    RowsTagged(ps, BranchPair, |ps|, BranchNote);
    PatternNotesTagged(ps);
  }

  /* ---------- from pairs to the whole list ---------- */

  /** A note of pair (`i`, `k`) is in row `i` once the inner loop has passed `k`. */
  lemma {:induction false} RowHas(ps: seq<Pillar>, pair: (Pillar, Pillar) --> seq<string>, i: nat, j: nat, k: nat, m: string)
    requires i < k < j <= |ps| && Applicable(ps, pair) && m in pair(ps[i], ps[k])
    ensures m in Row(ps, pair, i, j)
    decreases j
  {
    RowStep(ps, pair, i, j - 1);
    if k < j - 1 {
      RowHas(ps, pair, i, j - 1, k, m);
    }
  }

  /** A note of pair (`i`, `k`) is among the notes once the outer loop has passed `i`. */
  lemma {:induction false} RowsHas(ps: seq<Pillar>, pair: (Pillar, Pillar) --> seq<string>, n: nat, i: nat, k: nat, m: string)
    requires i < n <= |ps| && i < k < |ps| && Applicable(ps, pair) && m in pair(ps[i], ps[k])
    ensures m in Rows(ps, pair, n)
  {
    var before, row := Rows(ps, pair, n - 1), Row(ps, pair, n - 1, |ps|);
    if i < n - 1 {
      RowsHas(ps, pair, n - 1, i, k, m);
      assert m in before;
    } else {
      RowHas(ps, pair, i, |ps|, k, m);
      assert m in row;
    }
    assert m in before + row;
    RowsStep(ps, pair, n - 1);
  }

  /** Every note of every pair of pillars, taken in dict order, is among the messages. */
  lemma PairNotesInMessages(ps: seq<Pillar>, i: nat, k: nat)
    requires i < k < |ps| && StemsKnown(ps)
    ensures forall n :: n in StemPair(ps[i], ps[k]) ==> n in Messages(ps)
    ensures forall n :: n in BranchPair(ps[i], ps[k]) ==> n in Messages(ps)
  {
    StemPairApplicable(ps);
    BranchPairApplicable(ps);
    forall n | n in StemPair(ps[i], ps[k]) ensures n in Messages(ps) {
      RowsHas(ps, StemPair, |ps|, i, k, n);
    }
    forall n | n in BranchPair(ps[i], ps[k]) ensures n in Messages(ps) {
      RowsHas(ps, BranchPair, |ps|, i, k, n);
    }
  }
}
