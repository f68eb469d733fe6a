/**
 * The fixed tables of `BaZiAutomation` (bazi.py:30-142): the Five-Element
 * (五行) of each Heavenly Stem (天干) and Earthly Branch (地支), the 生 and
 * 克 cycles, the hidden stems (藏干) of each branch, and the stem and
 * branch relations. The source sets them once, in `__init__`, and never
 * changes them, so they are constants here.
 *
 * Stems, branches and elements are the one-character strings the source
 * passes around, so each is a `char` here; labels and hua texts are
 * strings. A Python `frozenset` of two branches is a Dafny `set<char>`, and
 * `tuple(sorted([a, b]))` is `Sorted2(a, b)`, since Python orders
 * one-character strings by code point.
 */
module BaziTables {

  /** `gan_wuxing` */
  const GanWuxing: map<char, char> := map[
    '甲' := '木', '乙' := '木',
    '丙' := '火', '丁' := '火',
    '戊' := '土', '己' := '土',
    '庚' := '金', '辛' := '金',
    '壬' := '水', '癸' := '水']

  /** `zhi_wuxing` */
  const ZhiWuxing: map<char, char> := map[
    '子' := '水', '丑' := '土',
    '寅' := '木', '卯' := '木',
    '辰' := '土', '巳' := '火',
    '午' := '火', '未' := '土',
    '申' := '金', '酉' := '金',
    '戌' := '土', '亥' := '水']

  /** The five elements, in the order `generate_prompt` counts them. */
  const Elements: seq<char> := ['金', '木', '水', '火', '土']

  /** `wuxing_relation["生"]`: the first element generates the second. */
  const Sheng: seq<(char, char)> := [('木', '火'), ('火', '土'), ('土', '金'), ('金', '水'), ('水', '木')]

  /** `wuxing_relation["克"]`: the first element overcomes the second. */
  const Ke: seq<(char, char)> := [('木', '土'), ('土', '水'), ('水', '火'), ('火', '金'), ('金', '木')]

  /** `hidden_stems` */
  const HiddenStems: map<char, seq<char>> := map[
    '子' := ['癸'], '丑' := ['己', '癸', '辛'], '寅' := ['甲', '丙', '戊'], '卯' := ['乙'],
    '辰' := ['戊', '乙', '癸'], '巳' := ['丙', '戊', '庚'], '午' := ['丁', '己'], '未' := ['己', '丁', '乙'],
    '申' := ['庚', '壬', '戊'], '酉' := ['辛'], '戌' := ['戊', '辛', '丁'], '亥' := ['壬', '甲']]

  /** `gan_rel_map["chong"]`: the stem clashes (冲). */
  const GanChong: seq<(char, char)> := [('甲', '庚'), ('乙', '辛'), ('丙', '壬'), ('丁', '癸')]

  /** `gan_rel_map["he"]`: the Five Combinations (五合). */
  const GanHe: seq<(char, char)> := [('甲', '己'), ('乙', '庚'), ('丙', '辛'), ('丁', '壬'), ('戊', '癸')]

  /** `gan_he_hua`: the element each combination transforms into, keyed by the pair as listed. */
  const GanHeHua: map<(char, char), char> := map[
    ('甲', '己') := '土',
    ('乙', '庚') := '金',
    ('丙', '辛') := '水',
    ('丁', '壬') := '木',
    ('戊', '癸') := '火']

  /** `tuple(sorted([a, b]))` */
  function Sorted2(a: char, b: char): (char, char) {
    if b < a then (b, a) else (a, b)
  }

  /** `_gan_he_canon`: each combination with its stems in ascending order. */
  function GanHeCanon(): set<(char, char)> {
    set p | p in GanHe :: Sorted2(p.0, p.1)
  }

  /** `zhi_liu_he`: the Six Combinations (六合) of branches, with what they transform into. */
  const ZhiLiuHe: map<set<char>, string> := map[
    {'子', '丑'} := "化土",
    {'寅', '亥'} := "化木",
    {'卯', '戌'} := "化火",
    {'辰', '酉'} := "化金",
    {'巳', '申'} := "化水",
    {'午', '未'} := "化土/火"]

  /** `zhi_liu_chong`: the Six Clashes (六冲). */
  const ZhiLiuChong: seq<set<char>> := [{'子', '午'}, {'丑', '未'}, {'寅', '申'}, {'卯', '酉'}, {'辰', '戌'}, {'巳', '亥'}]

  /** `zhi_hai`: the Six Harms (害). */
  const ZhiHai: seq<set<char>> := [{'子', '未'}, {'丑', '午'}, {'寅', '巳'}, {'卯', '辰'}, {'申', '亥'}, {'酉', '戌'}]

  /** `zhi_po`: the Six Destructions (破). */
  const ZhiPo: seq<set<char>> := [{'子', '酉'}, {'午', '卯'}, {'巳', '申'}, {'寅', '亥'}, {'辰', '丑'}, {'戌', '未'}]

  /** `zhi_san_he`: the Three Harmonies (三合), label and members, in dict order. */
  const ZhiSanHe: seq<(string, seq<char>)> := [
    ("水局", ['申', '子', '辰']),
    ("木局", ['亥', '卯', '未']),
    ("火局", ['寅', '午', '戌']),
    ("金局", ['巳', '酉', '丑'])]

  /** `zhi_san_hui`: the Three Meetings (三会), label and members, in dict order. */
  const ZhiSanHui: seq<(string, seq<char>)> := [
    ("水会", ['亥', '子', '丑']),
    ("木会", ['寅', '卯', '辰']),
    ("火会", ['巳', '午', '未']),
    ("金会", ['申', '酉', '戌'])]

  /** `zhi_xing["自刑"]`: the branches that punish themselves. */
  const SelfXing: seq<char> := ['辰', '午', '酉', '亥']

  /** `sorted(...)` comparison of two pairs is comparison of them as unordered pairs. */
  lemma Sorted2Same(x: char, y: char, a: char, b: char)
    ensures Sorted2(x, y) == Sorted2(a, b) <==> (x == a && y == b) || (x == b && y == a)
  {
  }

  /** Every branch has one to three hidden stems, all of them stems of the stem table. */
  lemma HiddenStemsAreStems()
    ensures forall z :: z in HiddenStems ==> 1 <= |HiddenStems[z]| <= 3
    ensures forall z, s :: z in HiddenStems && s in HiddenStems[z] ==> s in GanWuxing
  {
  }

  /** No element overcomes itself, and no two elements overcome each other. */
  lemma KeIrreflexiveAsymmetric()
    ensures forall w :: (w, w) !in Ke
    ensures forall a, b :: (a, b) in Ke ==> (b, a) !in Ke
  {
    forall a, b | (a, b) in Ke ensures (b, a) !in Ke {
      var i :| 0 <= i < |Ke| && Ke[i] == (a, b);
      assert i == 0 || i == 1 || i == 2 || i == 3 || i == 4;
    }
  }
}
