/**
 * The loops of `check_an_he` and `analyze_detailed_relations`
 * (bazi.py:227-368), as methods that append to a list step by step. Each is
 * proved to build exactly the list module BaziRelations describes, so the
 * properties proved there hold of what these methods return.
 */
module BaziAnalysis {
  import opened Maybe
  import opened Text
  import opened Ordering
  import opened BaziTables
  import opened BaziRelations

  /** `check_an_he` (bazi.py:227-245): both loops over the hidden stems, then the note. */
  method CheckAnHe(z1: char, z2: char) returns (r: Option<string>)
    ensures r == AnHe(z1, z2)
  {
    var found := HiddenStemPairs(StemsOf(z1), StemsOf(z2), GanHeCanon());
    if found != [] {
      r := Some("暗合(藏干" + Join(",", found) + ")");
    } else {
      r := None;
    }
  }

  /** The two loops of `check_an_he` (bazi.py:236-241), appending each combining pair to `found`. */
  method HiddenStemPairs(stems1: seq<char>, stems2: seq<char>, canon: set<(char, char)>) returns (found: seq<string>)
    ensures found == AnHeFound(stems1, stems2, canon)
  {
    found := [];
    var i := 0;
    while i < |stems1|
      invariant 0 <= i <= |stems1|
      invariant found == AnHeFound(stems1[..i], stems2, canon)
    {
      var row := PartnersOf(stems1[i], stems2, canon);
      assert stems1[..i + 1][..i] == stems1[..i];
      found := found + row;
      i := i + 1;
    }
    assert stems1[..i] == stems1;
  }

  /** The inner loop of `check_an_he` (bazi.py:237-241) for one hidden stem `s1`. */
  method PartnersOf(s1: char, stems2: seq<char>, canon: set<(char, char)>) returns (row: seq<string>)
    ensures row == AnHeRow(s1, stems2, canon)
  {
    row := [];
    var j := 0;
    while j < |stems2|
      invariant 0 <= j <= |stems2|
      invariant row == AnHeRow(s1, stems2[..j], canon)
    {
      var s2 := stems2[j];
      if Sorted2(s1, s2) in canon {
        row := row + [[s1, s2] + "合"];
      }
      assert stems2[..j + 1][..j] == stems2[..j];
      j := j + 1;
    }
    assert stems2[..j] == stems2;
  }

  /** The 冲 loop (bazi.py:275-278): one note per clash pair equal to the stems' sorted pair. */
  method ChongMessages(g1: char, g2: char, span: string) returns (notes: seq<string>, relationFound: bool)
    ensures notes == ChongNotes(g1, g2, GanChong, span)
    ensures relationFound <==> notes != []
  {
    var pairSorted := Sorted2(g1, g2);
    notes, relationFound := [], false;
    var k := 0;
    while k < |GanChong|
      invariant 0 <= k <= |GanChong|
      invariant notes == ChongNotes(g1, g2, GanChong[..k], span)
      invariant relationFound <==> notes != []
    {
      var c := GanChong[k];
      if pairSorted == Sorted2(c.0, c.1) {
        notes := notes + ["天干相冲" + span];
        relationFound := true;
      }
      assert GanChong[..k + 1][..k] == GanChong[..k];
      k := k + 1;
    }
    assert GanChong[..k] == GanChong;
  }

  /** The 合 loop (bazi.py:281-285): one note per combination equal to the stems' sorted pair. */
  method HeMessages(g1: char, g2: char, span: string) returns (notes: seq<string>, relationFound: bool)
    ensures notes == HeNotes(g1, g2, GanHe, span)
    ensures relationFound <==> notes != []
  {
    var pairSorted := Sorted2(g1, g2);
    notes, relationFound := [], false;
    var k := 0;
    while k < |GanHe|
      invariant 0 <= k <= |GanHe|
      invariant notes == HeNotes(g1, g2, GanHe[..k], span)
      invariant relationFound <==> notes != []
    {
      var c := GanHe[k];
      if pairSorted == Sorted2(c.0, c.1) {
        notes := notes + ["天干五合化" + Hua(c) + span];
        relationFound := true;
      }
      assert GanHe[..k + 1][..k] == GanHe[..k];
      k := k + 1;
    }
    assert GanHe[..k] == GanHe;
  }

  /**
   * The body of the stem loop for pillars `p` and `q` (bazi.py:268-291):
   * the 冲 and 合 loops set `relation_found`, and only when neither did is
   * `check_wuxing_ke` consulted.
   */
  method StemPairMessages(p: Pillar, q: Pillar) returns (notes: seq<string>)
    requires p.gan in GanWuxing && q.gan in GanWuxing
    ensures notes == StemPair(p, q)
  {
    var span := Span(p.loc, q.loc);
    var chong, chongFound := ChongMessages(p.gan, q.gan, span);
    var he, heFound := HeMessages(p.gan, q.gan, span);
    notes := chong + he;
    if !chongFound && !heFound {
      var keMsg := CheckWuxingKe(p.gan, q.gan);
      if keMsg.Some? {
        notes := notes + ["天干" + span];
      }
    }
  }

  /** The body of the branch loop for pillars `p` and `q` (bazi.py:299-320). */
  method BranchPairMessages(p: Pillar, q: Pillar) returns (notes: seq<string>)
    ensures notes == BranchPair(p, q)
  {
    var span := Span(p.loc, q.loc);
    var pairSet := {p.zhi, q.zhi};
    notes := [];
    if pairSet in ZhiLiuHe {
      notes := notes + ["地支六合" + ZhiLiuHe[pairSet] + span];
    }
    if pairSet in ZhiLiuChong {
      notes := notes + ["地支相冲" + span];
    }
    if pairSet in ZhiHai {
      notes := notes + ["地支相害" + span];
    }
    if pairSet in ZhiPo {
      notes := notes + ["地支相破" + span];
    }
    assert notes == TableNotes(pairSet, span);
    var anHe := CheckAnHe(p.zhi, q.zhi);
    if anHe.Some? && pairSet !in ZhiLiuHe {
      notes := notes + ["地支" + anHe.value + span];
    }
    assert notes == TableNotes(pairSet, span) + AnHeNotes(p.zhi, q.zhi, span);
    if p.zhi == q.zhi && p.zhi in SelfXing {
      notes := notes + ["地支自刑" + span];
    }
  }

  /** The inner stem loop for pillar `i` (bazi.py:267-291): its pairs with every later pillar. */
  method StemRow(ps: seq<Pillar>, i: nat) returns (row: seq<string>)
    requires i < |ps| && Applicable(ps, StemPair)
    ensures RowSoFar(ps, StemPair, i, |ps|, row)
  {
    row := [];
    RowSoFarStart(ps, StemPair, i);
    for j := i + 1 to |ps|
      invariant RowSoFar(ps, StemPair, i, j, row)
    {
      row := ExtendStemRow(ps, i, j, row);
    }
  }

  /** One pass of the inner stem loop: the notes of pillars `i` and `j` appended to the row. */
  method ExtendStemRow(ps: seq<Pillar>, i: nat, j: nat, row: seq<string>) returns (next: seq<string>)
    requires i < j < |ps| && Applicable(ps, StemPair)
    requires RowSoFar(ps, StemPair, i, j, row)
    ensures RowSoFar(ps, StemPair, i, j + 1, next)
  {
    var notes := StemPairMessages(ps[i], ps[j]);
    StemRowStep(ps, i, j, row, notes);
    next := row + notes;
  }

  /** Section 1 of `analyze_detailed_relations` (bazi.py:266-291): every pair of stems, in dict order. */
  method StemRelations(ps: seq<Pillar>) returns (messages: seq<string>)
    requires StemsKnown(ps)
    ensures Applicable(ps, StemPair)
    ensures messages == Rows(ps, StemPair, |ps|)
  {
    StemPairApplicable(ps);
    messages := [];
    var i := 0;
    while i < |ps|
      invariant 0 <= i <= |ps|
      invariant RowsSoFar(ps, StemPair, i, messages)
    {
      var row := StemRow(ps, i);
      RowsSoFarStep(ps, StemPair, i, messages, row);
      messages := messages + row;
      i := i + 1;
    }
  }

  /** The inner branch loop for pillar `i` (bazi.py:298-320): its pairs with every later pillar. */
  method BranchRow(ps: seq<Pillar>, i: nat) returns (row: seq<string>)
    requires i < |ps| && Applicable(ps, BranchPair)
    ensures RowSoFar(ps, BranchPair, i, |ps|, row)
  {
    row := [];
    RowSoFarStart(ps, BranchPair, i);
    for j := i + 1 to |ps|
      invariant RowSoFar(ps, BranchPair, i, j, row)
    {
      row := ExtendBranchRow(ps, i, j, row);
    }
  }

  /** One pass of the inner branch loop: the notes of pillars `i` and `j` appended to the row. */
  method ExtendBranchRow(ps: seq<Pillar>, i: nat, j: nat, row: seq<string>) returns (next: seq<string>)
    requires i < j < |ps| && Applicable(ps, BranchPair)
    requires RowSoFar(ps, BranchPair, i, j, row)
    ensures RowSoFar(ps, BranchPair, i, j + 1, next)
  {
    var notes := BranchPairMessages(ps[i], ps[j]);
    BranchRowStep(ps, i, j, row, notes);
    next := row + notes;
  }

  /** Section 2.1 (bazi.py:297-320): every pair of branches, in dict order. */
  method BranchRelations(ps: seq<Pillar>) returns (messages: seq<string>)
    ensures Applicable(ps, BranchPair)
    ensures messages == Rows(ps, BranchPair, |ps|)
  {
    BranchPairApplicable(ps);
    messages := [];
    var i := 0;
    while i < |ps|
      invariant 0 <= i <= |ps|
      invariant RowsSoFar(ps, BranchPair, i, messages)
    {
      var row := BranchRow(ps, i);
      RowsSoFarStep(ps, BranchPair, i, messages, row);
      messages := messages + row;
      i := i + 1;
    }
  }

  /** Section 2.3 (bazi.py:337-351): the 三合 note of each group, in table order. */
  method SanHeMessages(groups: seq<(string, seq<char>)>, zhiList: seq<char>) returns (messages: seq<string>)
    requires Groups(groups)
    ensures messages == SanHeNotes(groups, zhiList)
  {
    messages := [];
    for k := 0 to |groups|
      invariant messages == SanHeNotes(groups[..k], zhiList)
    {
      var (title, group) := groups[k];
      assert Triple(groups[k].1);
      messages := messages + SanHeNote(title, group, zhiList);
      assert groups[..k + 1][..k] == groups[..k];
    }
    assert groups[..|groups|] == groups;
  }

  /** Section 2.4 (bazi.py:354-365): the 三会 note of each group, in table order. */
  method SanHuiMessages(groups: seq<(string, seq<char>)>, zhiList: seq<char>) returns (messages: seq<string>)
    requires Groups(groups)
    ensures messages == SanHuiNotes(groups, zhiList)
  {
    messages := [];
    for k := 0 to |groups|
      invariant messages == SanHuiNotes(groups[..k], zhiList)
    {
      var (title, group) := groups[k];
      assert Triple(groups[k].1);
      messages := messages + SanHuiNote(title, group, zhiList);
      assert groups[..k + 1][..k] == groups[..k];
    }
    assert groups[..|groups|] == groups;
  }

  /**
   * `analyze_detailed_relations` (bazi.py:247-368): the notes of every
   * section, sorted and with duplicates removed. The result is ascending
   * without repeats and holds exactly the notes the sections produce.
   */
  method AnalyzeDetailedRelations(ps: seq<Pillar>) returns (notes: seq<string>)
    requires StemsKnown(ps)
    ensures StrictlyAscending(notes)
    ensures forall n :: n in notes <==> n in Messages(ps)
  {
    var stemNotes := StemRelations(ps);
    var branchNotes := BranchRelations(ps);
    var zhiList := ZhiList(ps);
    var presentZhis := Branches(ps);
    TablesAreGroups();
    var sanHe := SanHeMessages(ZhiSanHe, zhiList);
    var sanHui := SanHuiMessages(ZhiSanHui, zhiList);
    var patterns := XingNotes(presentZhis) + sanHe + sanHui;
    assert patterns == PatternNotes(ps);
    var messages := stemNotes + branchNotes + patterns;
    assert messages == Messages(ps);
    notes := SortedUnique(messages);
  }

  /** Two stems that clash are reported as 天干相冲 with their positions, whatever else the chart holds. */
  lemma StemClashReported(ps: seq<Pillar>, notes: seq<string>, i: nat, k: nat)
    requires StemsKnown(ps) && forall n :: n in notes <==> n in Messages(ps)
    requires i < k < |ps| && StemsClash(ps[i].gan, ps[k].gan)
    ensures "天干相冲" + Span(ps[i].loc, ps[k].loc) in notes
  {
    StemPairNotes(ps[i], ps[k]);
    PairNotesInMessages(ps, i, k);
    assert "天干相冲" + Span(ps[i].loc, ps[k].loc) in StemPair(ps[i], ps[k]);
  }

  /** Two equal branches of the 自刑 list are reported as 地支自刑 with their positions. */
  lemma SelfPunishmentReported(ps: seq<Pillar>, notes: seq<string>, i: nat, k: nat)
    requires StemsKnown(ps) && forall n :: n in notes <==> n in Messages(ps)
    requires i < k < |ps| && ps[i].zhi == ps[k].zhi && ps[i].zhi in SelfXing
    ensures "地支自刑" + Span(ps[i].loc, ps[k].loc) in notes
  {
    SelfPunishmentIff(ps[i], ps[k]);
    PairNotesInMessages(ps, i, k);
  }
}
