/**
 * `parse_list_response` (close_loop.py): turns a model's reply into an
 * `[agree, message]` pair. It never fails: a well-formed `[bool, str]`
 * literal wins, first in the raw text, then inside the first fenced block,
 * and otherwise a keyword heuristic decides `agree` and the message is the
 * raw text.
 *
 * `ast.literal_eval` is replaced by `LiteralEval`, a recogniser for the
 * one shape the caller accepts: `[True|False, '<str>'|"<str>"]`, with
 * Python's token white space anywhere between tokens, an optional trailing
 * comma, and the usual one-character backslash escapes in the string. Like
 * Python it refuses a text holding a NUL character and a first or last
 * line that is indented.
 */
module ResponseParser {
  import opened Maybe
  import opened Text

  /* ---------- the literal recogniser ---------- */

  /** White space the Python tokenizer skips between the tokens of a bracketed expression. */
  predicate IsTokenSpace(c: char) {
    c == ' ' || c == '\t' || c == '\U{000C}' || c == '\n' || c == '\r'
  }

  predicate AllTokenSpace(s: string) {
    forall i :: 0 <= i < |s| ==> IsTokenSpace(s[i])
  }

  /** A line break to the Python tokenizer, which reads `\r\n` and a lone `\r` as `\n`. */
  predicate IsLineBreak(c: char) {
    c == '\n' || c == '\r'
  }

  /**
   * The white space `w` before the first token leaves that token at column
   * 0 once `ast.literal_eval` has stripped spaces and tabs from the front:
   * `w` is only spaces and tabs, or ends with a line break or with a form
   * feed (which sets the column back to 0). Otherwise Python reports an
   * unexpected indent.
   */
  predicate Flush(w: string) {
    (forall j :: 0 <= j < |w| ==> w[j] == ' ' || w[j] == '\t')
    || IsLineBreak(w[|w| - 1]) || w[|w| - 1] == '\U{000C}'
  }

  /**
   * The white space `w` after the last token opens no indented line: the
   * last line of a text counts even when it is blank, so `w` has no line
   * break or ends with one or with a form feed.
   */
  predicate TrailFlush(w: string) {
    (forall j :: 0 <= j < |w| ==> !IsLineBreak(w[j]))
    || IsLineBreak(w[|w| - 1]) || w[|w| - 1] == '\U{000C}'
  }

  /** The first index at or after `i` that is not token white space. */
  function SkipSpace(s: string, i: nat): (k: nat)
    requires i <= |s|
    ensures i <= k <= |s|
    ensures forall j :: i <= j < k ==> IsTokenSpace(s[j])
    ensures k < |s| ==> !IsTokenSpace(s[k])
    decreases |s| - i
  {
    if i < |s| && IsTokenSpace(s[i]) then SkipSpace(s, i + 1) else i
  }

  /** The Python keywords `True` and `False`. */
  function BoolWord(b: bool): string {
    if b then "True" else "False"
  }

  /** A `True` or `False` token at index `i`, and the index after it. */
  function ParseBool(s: string, i: nat): (r: Option<(bool, nat)>)
    requires i <= |s|
    ensures r.Some? ==> i <= r.value.1 <= |s| && s[i..r.value.1] == BoolWord(r.value.0)
  {
    if i + 4 <= |s| && s[i..i + 4] == "True" then Some((true, i + 4))
    else if i + 5 <= |s| && s[i..i + 5] == "False" then Some((false, i + 5))
    else None
  }

  /**
   * The character a one-character escape `\e` stands for, or `None` for an
   * escape the recogniser does not accept (octal, `\x`, `\u`, `\U`, `\N`,
   * and a backslash before a line break).
   */
  function EscapedChar(e: char): Option<string> {
    if e == '\\' || e == '\'' || e == '"' then Some([e])
    else if e == 'n' then Some("\n")
    else if e == 't' then Some("\t")
    else if e == 'r' then Some("\r")
    else if e == 'a' then Some("\U{0007}")
    else if e == 'b' then Some("\U{0008}")
    else if e == 'f' then Some("\U{000C}")
    else if e == 'v' then Some("\U{000B}")
    else if '0' <= e <= '7' || e == 'x' || e == 'u' || e == 'U' || e == 'N' || e == '\n' || e == '\r' then None
    else Some(['\\', e])
  }

  /**
   * The body of a string literal opened by quote `q`, from index `i` up to
   * and including the closing quote: the decoded text and the index after
   * the closing quote. A raw line break or a missing closing quote fails.
   */
  function StringBody(s: string, i: nat, q: char): (r: Option<(string, nat)>)
    requires i <= |s|
    ensures r.Some? ==> i < r.value.1 <= |s| && s[r.value.1 - 1] == q
    decreases |s| - i
  {
    if i == |s| then None
    else if s[i] == q then Some(([], i + 1))
    else if s[i] == '\n' || s[i] == '\r' then None
    else if s[i] == '\\' then
      if i + 1 == |s| then None
      else match EscapedChar(s[i + 1])
        case None => None
        case Some(d) =>
          match StringBody(s, i + 2, q)
          case None => None
          case Some(rest) => Some((d + rest.0, rest.1))
    else
      match StringBody(s, i + 1, q)
      case None => None
      case Some(rest) => Some(([s[i]] + rest.0, rest.1))
  }

  /** A single- or double-quoted string literal at index `i`. */
  function ParseString(s: string, i: nat): (r: Option<(string, nat)>)
    requires i <= |s|
    ensures r.Some? ==> i < r.value.1 <= |s|
  {
    if i < |s| && (s[i] == '\'' || s[i] == '"') then StringBody(s, i + 1, s[i]) else None
  }

  /**
   * `ast.literal_eval(text)` followed by the check that the value is a
   * two-element list of a `bool` and a `str`; `None` where Python raises or
   * the value has another shape.
   */
  function LiteralEval(s: string): Option<(bool, string)>
  {
    var i := SkipSpace(s, 0);
    if i == |s| || s[i] != '[' then None
    else if '\0' in s || !Flush(s[..i]) then None
    else ListItems(s, SkipSpace(s, i + 1))
  }

  /** After `[`: the `bool` item at `i`, then a comma. */
  function ListItems(s: string, i: nat): Option<(bool, string)>
    requires i <= |s|
  {
    match ParseBool(s, i)
    case None => None
    case Some(pb) =>
      var j := SkipSpace(s, pb.1);
      if j == |s| || s[j] != ',' then None else SecondItem(s, pb.0, SkipSpace(s, j + 1))
  }

  /** After `[b,`: the `str` item at `i`. */
  function SecondItem(s: string, b: bool, i: nat): Option<(bool, string)>
    requires i <= |s|
  {
    match ParseString(s, i)
    case None => None
    case Some(ps) => ListEnd(s, b, ps.0, SkipSpace(s, ps.1))
  }

  /** After `[b, m`: an optional trailing comma, `]`, and nothing but white space. */
  function ListEnd(s: string, b: bool, m: string, i: nat): Option<(bool, string)>
    requires i <= |s|
  {
    var j := if i < |s| && s[i] == ',' then SkipSpace(s, i + 1) else i;
    if j == |s| || s[j] != ']' || SkipSpace(s, j + 1) != |s| || !TrailFlush(s[j + 1..]) then None
    else Some((b, m))
  }

  /* ---------- the parser ---------- */

  const Fence: string := "```"

  /**
   * `parts[1]` of `s.split("```")` when there are at least three parts: the
   * text between the first and the second occurrence of the fence.
   */
  function FencedContent(s: string): Option<string> {
    match IndexOf(s, Fence, 0)
    case None => None
    case Some(i) =>
      match IndexOf(s, Fence, i + 3)
      case None => None
      case Some(j) => Some(s[i + 3..j])
  }

  /**
   * What `FencedContent` finds: the text between two fences that holds no
   * fence itself, and nothing only when the reply has fewer than two
   * non-overlapping fences.
   */
  lemma FencedContentBetweenFences(s: string)
    ensures FencedContent(s).Some? ==> exists i, j ::
      OccursAt(s, Fence, i) && OccursAt(s, Fence, j) && i + 3 <= j && FencedContent(s).value == s[i + 3..j]
    ensures FencedContent(s).Some? ==> forall k :: !OccursAt(FencedContent(s).value, Fence, k)
    ensures FencedContent(s).None? ==>
      forall i, j :: OccursAt(s, Fence, i) && i + 3 <= j ==> !OccursAt(s, Fence, j)
  {
    match IndexOf(s, Fence, 0)
    case None =>
    case Some(i) =>
      match IndexOf(s, Fence, i + 3)
      case None =>
      case Some(j) =>
        var inner := s[i + 3..j];
        forall k ensures !OccursAt(inner, Fence, k) {
          OccursInSlice(s, Fence, i + 3, j, k);
        }
  }

  /** The text the second literal attempt and the heuristic look at. */
  function Cleaned(text: string): string {
    var c := Strip(text);
    match FencedContent(c)
    case Some(inner) => Strip(inner)
    case None => c
  }

  /** The first 200 characters of `s`, lower-cased. */
  function Head(s: string): (r: string)
    ensures |r| <= 200
  {
    Lower(if |s| <= 200 then s else s[..200])
  }

  /**
   * The keyword heuristic: "true" without "false" agrees, "false" without
   * "true" disagrees, and a reply with both or neither disagrees too.
   */
  function HeuristicAgree(cleaned: string): (agree: bool)
    ensures agree <==> Contains(Head(cleaned), "true") && !Contains(Head(cleaned), "false")
  {
    var head := Head(cleaned);
    if Contains(head, "true") && !Contains(head, "false") then true
    else if Contains(head, "false") && !Contains(head, "true") then false
    else false
  }

  /** Only the first 200 characters count. */
  lemma HeuristicWindow(cleaned: string)
    requires |cleaned| > 200
    ensures HeuristicAgree(cleaned) == HeuristicAgree(cleaned[..200])
  {
    assert cleaned[..200][..200] == cleaned[..200];
  }

  /** A keyword in any letter case within the first 200 characters is seen. */
  lemma KeywordInHead(s: string, k: nat, w: string)
    requires k + |w| <= |s| && k + |w| <= 200 && s[k..k + |w|] == w
    ensures Contains(Head(s), Lower(w))
  {
    var head := Head(s);
    assert head[k..k + |w|] == Lower(w) by {
      forall t | 0 <= t < |w| ensures head[k + t] == Lower(w)[t] {
        assert s[k + t] == w[t];
      }
    }
    assert OccursAt(head, Lower(w), k);
    ContainsIff(head, Lower(w));
  }

  /** A keyword that starts with a letter the text lacks cannot be in it. */
  lemma NotContainsWithout(s: string, pat: string)
    requires pat != [] && pat[0] !in s
    ensures !Contains(s, pat)
  {
    forall k | 0 <= k && k + |pat| <= |s| ensures !OccursAt(s, pat, k) {
      assert s[k] in s;
      assert s[k..k + |pat|][0] == s[k];
    }
    ContainsIff(s, pat);
  }

  function ParseListResponse(text: string): (r: (bool, string))
    ensures LiteralEval(text).Some? ==> r == LiteralEval(text).value
    ensures LiteralEval(text).None? && LiteralEval(Cleaned(text)).Some? ==>
      r == LiteralEval(Cleaned(text)).value
    ensures LiteralEval(text).None? && LiteralEval(Cleaned(text)).None? ==>
      r.1 == text && (r.0 <==> Contains(Head(Cleaned(text)), "true") && !Contains(Head(Cleaned(text)), "false"))
  {
    match LiteralEval(text)
    case Some(pair) => pair
    case None =>
      var cleaned := Cleaned(text);
      match LiteralEval(cleaned)
      case Some(pair) => pair
      case None => (HeuristicAgree(cleaned), text)
  }

  /* ---------- what the recogniser accepts ---------- */

  /**
   * One way to write character `c` between quotes `q` in a Python literal,
   * as `repr` does for these characters: backslash, the quote and line
   * breaks are escaped, every other character is written as it is.
   */
  function EscapeChar(c: char, q: char): (r: string)
    requires q == '\'' || q == '"'
    ensures |r| == 1 ==> r[0] == c && c != q && c != '\\' && c != '\n' && c != '\r'
    ensures |r| != 1 ==> |r| == 2 && r[0] == '\\' && EscapedChar(r[1]) == Some([c])
  {
    if c == '\\' then "\\\\"
    else if c == q then ['\\', q]
    else if c == '\n' then "\\n"
    else if c == '\r' then "\\r"
    else [c]
  }

  function Escape(m: string, q: char): (r: string)
    requires q == '\'' || q == '"'
  {
    if m == [] then [] else EscapeChar(m[0], q) + Escape(m[1..], q)
  }

  /** A literal of the form `repr` gives for `[b, m]`, quoted with `q`: the reply a model is asked to give. */
  function ListLiteral(b: bool, m: string, q: char): string
    requires q == '\'' || q == '"'
  {
    "[" + BoolWord(b) + ", " + [q] + Escape(m, q) + [q] + "]"
  }

  /** One step of `StringBody` over the escaped form of character `c`. */
  lemma StringBodyStep(s: string, i: nat, c: char, q: char, rest: (string, nat))
    requires q == '\'' || q == '"'
    requires i + |EscapeChar(c, q)| <= |s|
    requires forall j :: 0 <= j < |EscapeChar(c, q)| ==> s[i + j] == EscapeChar(c, q)[j]
    requires StringBody(s, i + |EscapeChar(c, q)|, q) == Some(rest)
    ensures StringBody(s, i, q) == Some(([c] + rest.0, rest.1))
  {
    var ec := EscapeChar(c, q);
    assert s[i] == ec[0];
    if |ec| == 2 {
      assert s[i + 1] == ec[1];
    }
  }

  /**
   * `StringBody` reads the escaped form of `m`, placed after `p` and
   * followed by the closing quote, back as `m`.
   */
  ghost predicate DecodesAfter(p: string, m: string, q: char, r: string)
    requires q == '\'' || q == '"'
  {
    StringBody(p + Escape(m, q) + [q] + r, |p|, q) == Some((m, |p| + |Escape(m, q)| + 1))
  }

  /** The closing quote right after `p` ends an empty body. */
  lemma DecodesClose(p: string, q: char, r: string)
    requires q == '\'' || q == '"'
    ensures DecodesAfter(p, [], q, r)
  {
    assert (p + Escape([], q) + [q] + r)[|p|] == q;
  }

  /** Decoding the rest of a body after the escaped form of `c` extends to decoding `c` too. */
  lemma DecodesEscapeStep(p: string, c: char, tail: string, q: char, r: string)
    requires q == '\'' || q == '"'
    requires DecodesAfter(p + EscapeChar(c, q), tail, q, r)
    ensures DecodesAfter(p, [c] + tail, q, r)
  {
    var ec, m := EscapeChar(c, q), [c] + tail;
    assert m[0] == c && m[1..] == tail;
    var s := p + ec + Escape(tail, q) + [q] + r;
    assert p + Escape(m, q) + [q] + r == s;
    forall j | 0 <= j < |ec| ensures s[|p| + j] == ec[j] {
      assert s[|p| + j] == (p + ec)[|p| + j];
    }
    StringBodyStep(s, |p|, c, q, (tail, |p| + |Escape(m, q)| + 1));
  }

  /** Induction over `m`: the escaped form of every text decodes back to it. */
  lemma {:induction false} DecodesEscapeAfter(p: string, m: string, q: char, r: string)
    requires q == '\'' || q == '"'
    ensures DecodesAfter(p, m, q, r)
    decreases |m|
  {
    if m == [] {
      DecodesClose(p, q, r);
    } else {
      DecodesEscapeAfter(p + EscapeChar(m[0], q), m[1..], q, r);
      DecodesEscapeStep(p, m[0], m[1..], q, r);
      assert [m[0]] + m[1..] == m;
    }
  }

  /** `StringBody` decodes the escaped form of `m`, followed by the closing quote, back to `m`. */
  lemma StringBodyDecodesEscape(s: string, i: nat, m: string, q: char)
    requires q == '\'' || q == '"'
    requires i + |Escape(m, q)| < |s| && s[i + |Escape(m, q)|] == q
    requires forall j :: 0 <= j < |Escape(m, q)| ==> s[i + j] == Escape(m, q)[j]
    ensures StringBody(s, i, q) == Some((m, i + |Escape(m, q)| + 1))
  {
    var e := Escape(m, q);
    var p, r := s[..i], s[i + |e| + 1..];
    assert s == p + e + [q] + r;
    DecodesEscapeAfter(p, m, q, r);
  }

  lemma SkipSpaceTo(s: string, i: nat, k: nat)
    requires i <= k <= |s|
    requires forall j :: i <= j < k ==> IsTokenSpace(s[j])
    requires k < |s| ==> !IsTokenSpace(s[k])
    ensures SkipSpace(s, i) == k
  {
  }

  /** `s` holds `e` from index `i` on. */
  ghost predicate HoldsAt(s: string, i: nat, e: string) {
    i + |e| <= |s| && forall j :: 0 <= j < |e| ==> s[i + j] == e[j]
  }

  /** Where the tokens of a list literal with escaped body `e` sit once it is placed after `w1`. */
  lemma ListLiteralLayout(s: string, w1: string, bw: string, e: string, q: char, w2: string)
    requires AllTokenSpace(w1) && AllTokenSpace(w2)
    requires s == w1 + ("[" + bw + ", " + [q] + e + [q] + "]") + w2
    ensures |w1| + |bw| + |e| + 5 < |s|
    ensures forall j :: 0 <= j < |w1| ==> IsTokenSpace(s[j])
    ensures s[|w1|] == '[' && s[|w1| + 1..|w1| + |bw| + 1] == bw
    ensures s[|w1| + |bw| + 1] == ',' && s[|w1| + |bw| + 2] == ' ' && s[|w1| + |bw| + 3] == q
    ensures HoldsAt(s, |w1| + |bw| + 4, e)
    ensures s[|w1| + |bw| + 4 + |e|] == q
    ensures s[|w1| + |bw| + 4 + |e| + 1] == ']'
    ensures forall j :: |w1| + |bw| + 4 + |e| + 1 < j < |s| ==> IsTokenSpace(s[j])
    ensures s[..|w1|] == w1 && s[|w1| + |bw| + 4 + |e| + 2..] == w2
  {
    var t := "[" + bw + ", " + [q] + e + [q] + "]";
    var n, k := |bw|, |w1|;
    var close := k + n + |e| + 5;
    assert s[k..k + |t|] == t;
    assert s[k + 1..k + n + 1] == t[1..n + 1];
    forall j | 0 <= j < |e| ensures s[k + n + 4 + j] == e[j] {
      assert s[k + n + 4 + j] == t[n + 4 + j];
    }
    assert s[close + 1..] == w2;
    assert s[..k] == w1;
    forall j | 0 <= j < k ensures IsTokenSpace(s[j]) {
      assert s[j] == w1[j];
    }
    forall j | close < j < |s| ensures IsTokenSpace(s[j]) {
      assert s[j] == w2[j - close - 1];
    }
  }

  /** The recogniser's path from the opening quote of the second item to the end. */
  lemma SecondItemOfLayout(s: string, b: bool, m: string, i: nat, close: nat)
    requires i < close < |s|
    requires (s[i] == '\'' || s[i] == '"') && StringBody(s, i + 1, s[i]) == Some((m, close))
    requires s[close] == ']'
    requires forall j :: close < j < |s| ==> IsTokenSpace(s[j])
    ensures SecondItem(s, b, i) == if TrailFlush(s[close + 1..]) then Some((b, m)) else None
  {
    SkipSpaceTo(s, close + 1, |s|);
    SkipSpaceTo(s, close, close);
  }

  lemma ParseBoolAt(s: string, i: nat, b: bool)
    requires i + |BoolWord(b)| <= |s| && s[i..i + |BoolWord(b)|] == BoolWord(b)
    ensures ParseBool(s, i) == Some((b, i + |BoolWord(b)|))
  {
    if !b {
      assert s[i] == 'F';
    }
  }

  lemma ListItemsAt(s: string, i: nat, b: bool, j: nat)
    requires i <= j && j + 2 < |s|
    requires ParseBool(s, i) == Some((b, j))
    requires s[j] == ',' && s[j + 1] == ' ' && !IsTokenSpace(s[j + 2])
    ensures ListItems(s, i) == SecondItem(s, b, j + 2)
  {
    SkipSpaceTo(s, j, j);
    SkipSpaceTo(s, j + 1, j + 2);
  }

  lemma LiteralEvalAt(s: string, k: nat)
    requires k + 1 < |s|
    requires forall j :: 0 <= j < k ==> IsTokenSpace(s[j])
    requires s[k] == '[' && !IsTokenSpace(s[k + 1])
    ensures LiteralEval(s) == if '\0' in s || !Flush(s[..k]) then None else ListItems(s, k + 1)
  {
    SkipSpaceTo(s, 0, k);
    SkipSpaceTo(s, k + 1, k + 1);
  }

  /** The recogniser's path from the start up to the opening quote of the second item. */
  lemma HeadOfLayout(s: string, k: nat, b: bool)
    requires k + |BoolWord(b)| + 3 < |s|
    requires forall j :: 0 <= j < k ==> IsTokenSpace(s[j])
    requires s[k] == '[' && s[k + 1..k + |BoolWord(b)| + 1] == BoolWord(b)
    requires s[k + |BoolWord(b)| + 1] == ',' && s[k + |BoolWord(b)| + 2] == ' '
    requires s[k + |BoolWord(b)| + 3] == '\'' || s[k + |BoolWord(b)| + 3] == '"'
    ensures LiteralEval(s) ==
      if '\0' in s || !Flush(s[..k]) then None else SecondItem(s, b, k + |BoolWord(b)| + 3)
  {
    var n := |BoolWord(b)|;
    assert s[k + 1] == BoolWord(b)[0];
    ParseBoolAt(s, k + 1, b);
    ListItemsAt(s, k + 1, b, k + n + 1);
    LiteralEvalAt(s, k);
  }

  /** The escaped body, decoded in place, completes the layout of the whole literal. */
  lemma EscapedLayoutAccepted(s: string, k: nat, b: bool, m: string, q: char, i: nat)
    requires q == '\'' || q == '"'
    requires i == k + |BoolWord(b)| + 4 && i + |Escape(m, q)| + 1 < |s|
    requires forall j :: 0 <= j < k ==> IsTokenSpace(s[j])
    requires s[k] == '[' && s[k + 1..k + |BoolWord(b)| + 1] == BoolWord(b)
    requires s[k + |BoolWord(b)| + 1] == ',' && s[k + |BoolWord(b)| + 2] == ' '
    requires s[k + |BoolWord(b)| + 3] == q
    requires HoldsAt(s, i, Escape(m, q))
    requires s[i + |Escape(m, q)|] == q && s[i + |Escape(m, q)| + 1] == ']'
    requires forall j :: i + |Escape(m, q)| + 1 < j < |s| ==> IsTokenSpace(s[j])
    ensures LiteralEval(s) ==
      if '\0' in s || !Flush(s[..k]) || !TrailFlush(s[i + |Escape(m, q)| + 2..]) then None else Some((b, m))
  {
    SecondItemEscaped(s, b, m, q, i);
    HeadOfLayout(s, k, b);
  }

  /** The second item, written with `Escape`, decodes back to `m`. */
  lemma SecondItemEscaped(s: string, b: bool, m: string, q: char, i: nat)
    requires q == '\'' || q == '"'
    requires 0 < i && i + |Escape(m, q)| + 1 < |s| && s[i - 1] == q
    requires HoldsAt(s, i, Escape(m, q))
    requires s[i + |Escape(m, q)|] == q && s[i + |Escape(m, q)| + 1] == ']'
    requires forall j :: i + |Escape(m, q)| + 1 < j < |s| ==> IsTokenSpace(s[j])
    ensures SecondItem(s, b, i - 1) == if TrailFlush(s[i + |Escape(m, q)| + 2..]) then Some((b, m)) else None
  {
    var close := i + |Escape(m, q)| + 1;
    assert StringBody(s, i, s[i - 1]) == Some((m, close)) by {
      StringBodyDecodesEscape(s, i, m, q);
    }
    assert SecondItem(s, b, i - 1) == if TrailFlush(s[close + 1..]) then Some((b, m)) else None by {
      SecondItemOfLayout(s, b, m, i - 1, close);
    }
  }

  /** Escaping keeps a NUL character exactly where the text has one. */
  lemma {:induction false} EscapeKeepsNul(m: string, q: char)
    requires q == '\'' || q == '"'
    ensures '\0' in Escape(m, q) <==> '\0' in m
    decreases |m|
  {
    if m != [] {
      EscapeKeepsNul(m[1..], q);
      assert m == [m[0]] + m[1..];
    }
  }

  /** A list literal placed in token white space holds a NUL exactly where its message does. */
  lemma NulInLayout(s: string, w1: string, b: bool, m: string, q: char, w2: string)
    requires q == '\'' || q == '"'
    requires AllTokenSpace(w1) && AllTokenSpace(w2)
    requires s == w1 + ListLiteral(b, m, q) + w2
    ensures '\0' in s <==> '\0' in m
  {
    EscapeKeepsNul(m, q);
    assert '\0' !in w1 by {
      forall j | 0 <= j < |w1| ensures w1[j] != '\0' {
        assert IsTokenSpace(w1[j]);
      }
    }
    assert '\0' !in w2 by {
      forall j | 0 <= j < |w2| ensures w2[j] != '\0' {
        assert IsTokenSpace(w2[j]);
      }
    }
    assert '\0' !in BoolWord(b);
  }

  /**
   * The recogniser accepts `repr([b, m])` with token white space around it,
   * and gives back exactly `(b, m)`, unless the message holds a NUL, the
   * white space before it indents the list, or the white space after it
   * ends on an indented line: as `ast.literal_eval` does.
   */
  lemma ListLiteralAccepted(w1: string, b: bool, m: string, q: char, w2: string)
    requires q == '\'' || q == '"'
    requires AllTokenSpace(w1) && AllTokenSpace(w2)
    ensures LiteralEval(w1 + ListLiteral(b, m, q) + w2) ==
      if '\0' in m || !Flush(w1) || !TrailFlush(w2) then None else Some((b, m))
  {
    LayoutAccepted(w1 + ListLiteral(b, m, q) + w2, w1, b, m, q, w2);
  }

  /** `ListLiteralAccepted` for a reply `s` already known to be laid out that way. */
  lemma LayoutAccepted(s: string, w1: string, b: bool, m: string, q: char, w2: string)
    requires q == '\'' || q == '"'
    requires AllTokenSpace(w1) && AllTokenSpace(w2)
    requires s == w1 + ListLiteral(b, m, q) + w2
    ensures LiteralEval(s) == if '\0' in m || !Flush(w1) || !TrailFlush(w2) then None else Some((b, m))
  {
    ListLiteralLayout(s, w1, BoolWord(b), Escape(m, q), q, w2);
    NulInLayout(s, w1, b, m, q, w2);
    EscapedLayoutAccepted(s, |w1|, b, m, q, |w1| + |BoolWord(b)| + 4);
  }

  /** A reply that is exactly such a literal, in white space Python accepts, is returned as it is. */
  lemma ParseListLiteral(w1: string, b: bool, m: string, q: char, w2: string)
    requires q == '\'' || q == '"'
    requires AllTokenSpace(w1) && AllTokenSpace(w2) && Flush(w1) && TrailFlush(w2) && '\0' !in m
    ensures ParseListResponse(w1 + ListLiteral(b, m, q) + w2) == (b, m)
  {
    ListLiteralAccepted(w1, b, m, q, w2);
  }

  /* ---------- fenced replies ---------- */

  /** Escaping only ever adds backslashes and the letters `n` and `r`. */
  lemma {:induction false} EscapeKeepsOut(m: string, q: char, c: char)
    requires q == '\'' || q == '"'
    requires c != '\\' && c != 'n' && c != 'r' && c != q && c !in m
    ensures c !in Escape(m, q)
    decreases |m|
  {
    if m != [] {
      assert m[0] != c;
      EscapeKeepsOut(m[1..], q, c);
    }
  }

  /** A block fenced by the first two fences is what `FencedContent` returns. */
  lemma FencedContentOf(inner: string)
    requires '`' !in inner
    ensures FencedContent(Fence + inner + Fence) == Some(inner)
  {
    var s := Fence + inner + Fence;
    var close := 3 + |inner|;
    assert OccursAt(s, Fence, 0);
    assert IndexOf(s, Fence, 0) == Some(0);
    assert s[close..close + 3] == Fence;
    assert OccursAt(s, Fence, close);
    forall k | 3 <= k < close ensures !OccursAt(s, Fence, k) {
      assert s[k] == inner[k - 3];
      assert inner[k - 3] in inner;
    }
    var j := IndexOf(s, Fence, 3);
    assert j == Some(close);
    assert s[3..close] == inner;
  }

  /** Token white space is white space to `strip()`. */
  lemma TokenSpaceIsSpace(w: string)
    requires AllTokenSpace(w)
    ensures AllSpace(w)
  {
  }

  /** The fenced text of a reply whose strip leaves it as it is, stripped. */
  lemma CleanedOf(text: string, inner: string)
    requires Strip(text) == text && FencedContent(text) == Some(inner)
    ensures Cleaned(text) == Strip(inner)
  {
  }

  /** A fenced block with white space around a word is cleaned down to that word. */
  lemma CleanedFenced(w1: string, x: string, w2: string)
    requires AllSpace(w1) && AllSpace(w2)
    requires x != [] && !IsSpace(x[0]) && !IsSpace(x[|x| - 1])
    requires '`' !in w1 + x + w2
    ensures Cleaned(Fence + (w1 + x + w2) + Fence) == x
  {
    var inner := w1 + x + w2;
    var text := Fence + inner + Fence;
    assert text == [] + text + [] && text[0] == '`' && text[|text| - 1] == '`';
    StripAround([], text, []);
    FencedContentOf(inner);
    StripAround(w1, x, w2);
    CleanedOf(text, inner);
  }

  /**
   * A reply that starts with a character other than white space, `[`, `(`,
   * `#` (a comment) or `\` (a line continuation) is no list literal.
   */
  lemma LiteralEvalNeedsBracket(s: string)
    requires s != [] && !IsTokenSpace(s[0]) && s[0] != '[' && s[0] != '(' && s[0] != '#' && s[0] != '\\'
    ensures LiteralEval(s) == None
  {
    SkipSpaceTo(s, 0, 0);
  }

  /** The second attempt decides when the first fails and the cleaned text is a literal. */
  lemma ParseSecondAttempt(text: string, b: bool, m: string)
    requires LiteralEval(text) == None && LiteralEval(Cleaned(text)) == Some((b, m))
    ensures ParseListResponse(text) == (b, m)
  {
  }

  /** A list literal is bracketed, and holds a backtick only if its message does. */
  lemma ListLiteralShape(b: bool, m: string, q: char)
    requires q == '\'' || q == '"'
    requires '`' !in m
    ensures var lit := ListLiteral(b, m, q);
      lit != [] && lit[0] == '[' && lit[|lit| - 1] == ']' && '`' !in lit
  {
    EscapeKeepsOut(m, q, '`');
  }

  /** The recogniser accepts a list literal with nothing around it and no NUL in its message. */
  lemma ListLiteralAlone(b: bool, m: string, q: char)
    requires q == '\'' || q == '"'
    requires '\0' !in m
    ensures LiteralEval(ListLiteral(b, m, q)) == Some((b, m))
  {
    var lit := ListLiteral(b, m, q);
    assert lit == [] + lit + [];
    LayoutAccepted(lit, [], b, m, q, []);
  }

  /** A reply opening with a backtick whose cleaned text is a literal is read as that literal. */
  lemma ParseCleanedLiteral(text: string, x: string, b: bool, m: string)
    requires text != [] && text[0] == '`' && Cleaned(text) == x && LiteralEval(x) == Some((b, m))
    ensures ParseListResponse(text) == (b, m)
  {
    LiteralEvalNeedsBracket(text);
  }

  /** A fenced block holding a literal `x`, with white space around it, is read from inside the fence. */
  lemma ParseFencedWord(w1: string, x: string, w2: string, b: bool, m: string)
    requires AllSpace(w1) && AllSpace(w2) && '`' !in w1 && '`' !in w2
    requires x != [] && x[0] == '[' && x[|x| - 1] == ']' && '`' !in x
    requires LiteralEval(x) == Some((b, m))
    ensures ParseListResponse(Fence + w1 + x + w2 + Fence) == (b, m)
  {
    var text := Fence + w1 + x + w2 + Fence;
    assert text == Fence + (w1 + x + w2) + Fence && text[0] == '`';
    CleanedFenced(w1, x, w2);
    ParseCleanedLiteral(text, x, b, m);
  }

  /**
   * A reply that is a fenced block holding a list literal (with no backtick
   * in the message) fails the first attempt, since it starts with a
   * backtick, and is read from inside the fence by the second.
   */
  lemma ParseFencedLiteral(w1: string, b: bool, m: string, q: char, w2: string)
    requires q == '\'' || q == '"'
    requires AllTokenSpace(w1) && AllTokenSpace(w2) && '`' !in m && '\0' !in m
    ensures ParseListResponse(Fence + w1 + ListLiteral(b, m, q) + w2 + Fence) == (b, m)
  {
    var lit := ListLiteral(b, m, q);
    assert lit != [] && lit[0] == '[' && lit[|lit| - 1] == ']' && '`' !in lit by {
      ListLiteralShape(b, m, q);
    }
    assert LiteralEval(lit) == Some((b, m)) by {
      ListLiteralAlone(b, m, q);
    }
    assert AllSpace(w1) && AllSpace(w2) && '`' !in w1 && '`' !in w2 by {
      TokenSpaceIsSpace(w1);
      TokenSpaceIsSpace(w2);
    }
    ParseFencedWord(w1, lit, w2, b, m);
  }

  /** When neither attempt finds a literal, the heuristic decides and the message is the raw reply. */
  lemma ParseFallsBack(text: string)
    requires LiteralEval(text) == None && LiteralEval(Cleaned(text)) == None
    ensures ParseListResponse(text) == (HeuristicAgree(Cleaned(text)), text)
  {
  }

  /** A fenced block opening with a tag line is cleaned down to the tag line and what follows. */
  lemma ParseTaggedWord(tag: string, x: string)
    requires tag != [] && !IsSpace(tag[0]) && tag[0] != '[' && tag[0] != '(' && tag[0] != '#' && tag[0] != '\\' && '`' !in tag
    requires x != [] && !IsSpace(x[|x| - 1]) && '`' !in x
    ensures var text := Fence + tag + "\n" + x + "\n" + Fence;
      ParseListResponse(text) == (HeuristicAgree(tag + "\n" + x), text)
  {
    var y := tag + "\n" + x;
    var text := Fence + tag + "\n" + x + "\n" + Fence;
    assert text == Fence + ([] + y + "\n") + Fence;
    assert y[0] == tag[0] && y[|y| - 1] == x[|x| - 1];
    assert '`' !in y;
    assert AllSpace("\n") && AllSpace([]);
    CleanedFenced([], y, "\n");
    LiteralEvalNeedsBracket(text);
    LiteralEvalNeedsBracket(y);
    ParseFallsBack(text);
  }

  /**
   * A language tag after the opening fence (```json) stays in the cleaned
   * text, so the literal inside is not recognised: the agreement comes from
   * the keyword heuristic and the message is the whole raw reply.
   */
  lemma ParseTaggedFence(tag: string, b: bool, m: string, q: char)
    requires q == '\'' || q == '"'
    requires tag != [] && !IsSpace(tag[0]) && tag[0] != '[' && tag[0] != '(' && tag[0] != '#' && tag[0] != '\\' && '`' !in tag && '`' !in m
    ensures var text := Fence + tag + "\n" + ListLiteral(b, m, q) + "\n" + Fence;
      ParseListResponse(text) == (HeuristicAgree(tag + "\n" + ListLiteral(b, m, q)), text)
  {
    ListLiteralShape(b, m, q);
    ParseTaggedWord(tag, ListLiteral(b, m, q));
  }

  /**
   * A list on a line indented by spaces or tabs after a line break is
   * refused, as `ast.literal_eval` refuses it with an unexpected indent:
   * `\n  [True, '```a```']` is no literal, whatever the list holds.
   */
  lemma IndentedListRefused(indent: string, b: bool, m: string, q: char)
    requires q == '\'' || q == '"'
    requires indent != [] && forall j :: 0 <= j < |indent| ==> indent[j] == ' ' || indent[j] == '\t'
    ensures LiteralEval("\n" + indent + ListLiteral(b, m, q)) == None
  {
    var w1, lit := "\n" + indent, ListLiteral(b, m, q);
    assert AllTokenSpace(w1) && !Flush(w1) by {
      assert w1[0] == '\n' && w1[|w1| - 1] == indent[|indent| - 1];
      forall j | 1 <= j < |w1| ensures IsTokenSpace(w1[j]) {
        assert w1[j] == indent[j - 1];
      }
    }
    assert LiteralEval(w1 + lit + []) == None by {
      ListLiteralAccepted(w1, b, m, q, []);
    }
    assert w1 + lit + [] == "\n" + indent + lit;
  }
}
