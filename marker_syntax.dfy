/**
  * Recognising marker paragraphs and reading their text. The two marker patterns
  * are regular expressions in the source; here they are hand-written scanners with
  * the same leftmost, greedy behaviour.
  */
module MarkerSyntax {
  import opened Wrappers
  import opened JsStrings
  import opened Mdast
  import Errors

  /**
    * A paragraph whose first child is text whose trimmed value starts with `marker`:
    * the only node shape ever treated as a marker.
    */
  predicate IsMarkerShaped(n: Node, marker: string) {
    && n.Paragraph?
    && |n.children| > 0
    && n.children[0].Text?
    && StartsWith(Trim(n.children[0].value), marker)
  }

  /** The first index at or after `k` holding a line terminator, or `|s|`: where `.*` stops. */
  function LineEnd(s: string, k: nat): (e: nat)
    requires k <= |s|
    ensures k <= e <= |s|
    ensures forall j :: k <= j < e ==> !IsLineTerminator(s[j])
    ensures e < |s| ==> IsLineTerminator(s[e])
    decreases |s| - k
  {
    if k == |s| || IsLineTerminator(s[k]) then k else LineEnd(s, k + 1)
  }

  /** The last index in `[lo, hi)` holding `c`. */
  function LastIndexOf(s: string, c: char, lo: nat, hi: nat): (r: Option<nat>)
    requires lo <= hi <= |s|
    ensures r.Some? ==> lo <= r.value < hi && s[r.value] == c
    ensures r.Some? ==> forall j :: r.value < j < hi ==> s[j] != c
    ensures r.None? ==> forall j :: lo <= j < hi ==> s[j] != c
    decreases hi - lo
  {
    if lo == hi then None
    else if s[hi - 1] == c then Some(hi - 1)
    else LastIndexOf(s, c, lo, hi - 1)
  }

  /**
    * The pattern `marker{(.*)}` can match starting at `i`: the marker, a `{`, and a
    * later `}` on the same line.
    */
  predicate OpensAt(s: string, marker: string, i: nat) {
    var a := i + |marker| + 1;
    && a <= |s|
    && s[i..a - 1] == marker
    && s[a - 1] == '{'
    && LastIndexOf(s, '}', a, LineEnd(s, a)).Some?
  }

  /** The leftmost position at or after `i` where the marker pattern matches. */
  function FirstOpening(s: string, marker: string, i: nat): (r: Option<nat>)
    requires i <= |s|
    ensures r.Some? ==> i <= r.value <= |s| && OpensAt(s, marker, r.value)
    ensures r.Some? ==> forall j :: i <= j < r.value ==> !OpensAt(s, marker, j)
    ensures r.None? ==> forall j :: i <= j <= |s| ==> !OpensAt(s, marker, j)
    decreases |s| - i
  {
    if OpensAt(s, marker, i) then Some(i)
    else if i == |s| then None
    else FirstOpening(s, marker, i + 1)
  }

  /** Groups 1 and 2 of the start-marker pattern. */
  datatype StartMatch = StartMatch(name: string, params: string)

  /** Where group 1 starts and ends for a match of the marker pattern at `k`. */
  function NameStart(marker: string, k: nat): nat {
    k + |marker| + 1
  }

  function NameEnd(s: string, marker: string, k: nat): (close: nat)
    requires k <= |s| && OpensAt(s, marker, k)
    ensures NameStart(marker, k) <= close < LineEnd(s, NameStart(marker, k)) && s[close] == '}'
    ensures forall j :: close < j < LineEnd(s, NameStart(marker, k)) ==> s[j] != '}'
  {
    var a := NameStart(marker, k);
    LastIndexOf(s, '}', a, LineEnd(s, a)).value
  }

  predicate NoLineTerminator(t: string) {
    forall j :: 0 <= j < |t| ==> !IsLineTerminator(t[j])
  }

  /**
    * `s.match(new RegExp(`${marker}{(.*)}(\\[.*\\])?`))`: the leftmost match; the
    * name runs to the last `}` on its line, and the bracket group is taken only when
    * `[` directly follows that `}` and a `]` comes later on the line.
    */
  function MatchStart(s: string, marker: string): (r: Option<StartMatch>)
    ensures r.Some? <==> FirstOpening(s, marker, 0).Some?
  {
    match FirstOpening(s, marker, 0)
    case None => None
    case Some(k) =>
      var a := NameStart(marker, k);
      var close := NameEnd(s, marker, k);
      Some(StartMatch(s[a..close], BracketGroup(s, close, LineEnd(s, a))))
  }

  /**
    * Group 2: from a `[` right after `close` to the last `]` before `e` (the greedy
    * `.*`), present exactly when such a `[` and a later `]` exist, and otherwise `""`.
    */
  function BracketGroup(s: string, close: nat, e: nat): (params: string)
    requires close < e <= |s|
    ensures params == "" || (close + 1 + |params| <= e && s[close + 1..close + 1 + |params|] == params)
    ensures params == "" || (params[0] == '[' && params[|params| - 1] == ']')
    ensures params != "" <==> (close + 1 < e && s[close + 1] == '[' && exists j :: close + 2 <= j < e && s[j] == ']')
    ensures params != "" ==> forall j :: close + |params| < j < e ==> s[j] != ']'
  {
    if close + 1 < e && s[close + 1] == '[' && LastIndexOf(s, ']', close + 2, e).Some?
    then s[close + 1..LastIndexOf(s, ']', close + 2, e).value + 1]
    else ""
  }

  /**
    * A start match is the marker, `{`, the name, `}` and the bracket group, found at the
    * leftmost position where the pattern can match, all on one line, with no `}` after
    * the name on that line.
    */
  lemma MatchStartSound(s: string, marker: string)
    requires MatchStart(s, marker).Some?
    ensures
      var r := MatchStart(s, marker).value;
      var k := FirstOpening(s, marker, 0).value;
      var whole := marker + "{" + r.name + "}" + r.params;
      && k + |whole| <= |s|
      && s[k..k + |whole|] == whole
      && NoLineTerminator(r.name) && NoLineTerminator(r.params)
      && (r.params == [] || (r.params[0] == '[' && r.params[|r.params| - 1] == ']'))
      && forall j :: k + |marker| + 1 + |r.name| < j < LineEnd(s, NameStart(marker, k)) ==> s[j] != '}'
  {
    var k := FirstOpening(s, marker, 0).value;
    var a := NameStart(marker, k);
    var close := NameEnd(s, marker, k);
    var e := LineEnd(s, a);
    MatchStartIs(s, marker);
    OpeningFacts(s, marker, k);
    BracketGroupFits(s, close, e);
    WholeStart(s, marker, k, a, close, e, s[a..close], BracketGroup(s, close, e));
  }

  /** Where the parts of a match at `k` lie, as positions in `s`. */
  lemma OpeningFacts(s: string, marker: string, k: nat)
    requires k <= |s| && OpensAt(s, marker, k)
    ensures var a := NameStart(marker, k);
      var close := NameEnd(s, marker, k);
      var e := LineEnd(s, a);
      && a == k + |marker| + 1 && a <= close < e <= |s|
      && s[k..a - 1] == marker && s[a - 1] == '{' && s[close] == '}'
      && (forall j :: a <= j < e ==> !IsLineTerminator(s[j]))
      && (forall j :: close < j < e ==> s[j] != '}')
  {
  }

  /** The bracket group is empty or lies between `close` and `e`. */
  lemma BracketGroupFits(s: string, close: nat, e: nat)
    requires close < e <= |s|
    ensures var params := BracketGroup(s, close, e);
      params == "" || (close + 1 + |params| <= e && s[close + 1..close + 1 + |params|] == params)
  {
  }

  /** The groups of a start match, in terms of where the match begins. */
  lemma MatchStartIs(s: string, marker: string)
    requires MatchStart(s, marker).Some?
    ensures var k := FirstOpening(s, marker, 0).value;
      var close := NameEnd(s, marker, k);
      MatchStart(s, marker).value
        == StartMatch(s[NameStart(marker, k)..close], BracketGroup(s, close, LineEnd(s, NameStart(marker, k))))
  {
  }

  /**
    * The text of a match at `k`: the marker, `{`, the name, `}` and the bracket group,
    * stated on positions only.
    */
  lemma WholeStart(s: string, marker: string, k: nat, a: nat, close: nat, e: nat, name: string, params: string)
    requires a == k + |marker| + 1 && a <= close < e <= |s|
    requires s[k..a - 1] == marker && s[a - 1] == '{' && s[close] == '}'
    requires forall j :: a <= j < e ==> !IsLineTerminator(s[j])
    requires name == s[a..close]
    requires params == "" || (close + 1 + |params| <= e && s[close + 1..close + 1 + |params|] == params)
    ensures var whole := marker + "{" + name + "}" + params;
      k + |whole| <= |s| && s[k..k + |whole|] == whole
    ensures NoLineTerminator(name)
    ensures NoLineTerminator(params)
    ensures k + |marker| + 1 + |name| == close
  {
    var whole := marker + "{" + name + "}" + params;
    assert |whole| == close + 1 + |params| - k;
    forall j | 0 <= j < |whole| ensures s[k..k + |whole|][j] == whole[j] {
      if j < |marker| {
        assert whole[j] == marker[j];
      } else if j == |marker| {
      } else if j < close - k {
        assert whole[j] == name[j - |marker| - 1];
      } else if j == close - k {
      } else {
        assert whole[j] == params[j - (close + 1 - k)];
      }
    }
    forall j | 0 <= j < |name| ensures !IsLineTerminator(name[j]) {
      assert name[j] == s[a + j];
    }
    forall j | 0 <= j < |params| ensures !IsLineTerminator(params[j]) {
      assert params[j] == s[close + 1 + j];
    }
  }

  /** `s.match(new RegExp(`${marker}{(.*)}`))`: group 1, running to the last `}` on its line. */
  function MatchEnd(s: string, marker: string): (r: Option<string>)
    ensures r.Some? <==> FirstOpening(s, marker, 0).Some?
  {
    match FirstOpening(s, marker, 0)
    case None => None
    case Some(k) => Some(s[NameStart(marker, k)..NameEnd(s, marker, k)])
  }

  /**
    * An end match is the marker, `{`, the name and `}`, found at the leftmost position
    * where the pattern can match, on one line, with no `}` after it on that line.
    */
  lemma MatchEndSound(s: string, marker: string)
    requires MatchEnd(s, marker).Some?
    ensures
      var name := MatchEnd(s, marker).value;
      var k := FirstOpening(s, marker, 0).value;
      var whole := marker + "{" + name + "}";
      && k + |whole| <= |s|
      && s[k..k + |whole|] == whole
      && NoLineTerminator(name)
      && forall j :: k + |whole| <= j < LineEnd(s, NameStart(marker, k)) ==> s[j] != '}'
  {
    var k := FirstOpening(s, marker, 0).value;
    var a := NameStart(marker, k);
    var close := NameEnd(s, marker, k);
    var name := s[a..close];
    assert s[k..a - 1] == marker && s[a - 1] == '{';
    WholeStart(s, marker, k, a, close, LineEnd(s, a), name, "");
    assert marker + "{" + name + "}" + "" == marker + "{" + name + "}";
  }

  /** Text that the marker patterns cannot split: on one line and free of `}`. */
  predicate Plain(t: string) {
    forall j :: 0 <= j < |t| ==> !IsLineTerminator(t[j]) && t[j] != '}'
  }

  lemma {:induction false} LineEndAtEnd(s: string, k: nat)
    requires k <= |s|
    requires forall j :: k <= j < |s| ==> !IsLineTerminator(s[j])
    ensures LineEnd(s, k) == |s|
    decreases |s| - k
  {
    if k < |s| {
      LineEndAtEnd(s, k + 1);
    }
  }

  lemma {:induction false} LastIndexSkips(s: string, c: char, lo: nat, m: nat, hi: nat)
    requires lo <= m <= hi <= |s|
    requires forall j :: m <= j < hi ==> s[j] != c
    ensures LastIndexOf(s, c, lo, hi) == LastIndexOf(s, c, lo, m)
    decreases hi - m
  {
    if m < hi {
      LastIndexSkips(s, c, lo, m, hi - 1);
    }
  }

  /** The parts of `marker{name}rest`, as slices. */
  lemma FrontParts(s: string, marker: string, name: string, rest: string)
    requires s == marker + "{" + name + "}" + rest
    ensures |s| == |marker| + |name| + 2 + |rest|
    ensures s[..|marker|] == marker && s[|marker|] == '{'
    ensures s[|marker| + 1..|marker| + 1 + |name|] == name && s[|marker| + 1 + |name|] == '}'
    ensures s[|marker| + 2 + |name|..] == rest
  {
  }

  /** The marker pattern matches at 0 when the marker, `{`, plain text, `}` and plain text fill the line. */
  lemma OpensAtFrontSliced(s: string, marker: string, close: nat)
    requires |marker| + 1 <= close < |s|
    requires s[..|marker|] == marker && s[|marker|] == '{' && s[close] == '}'
    requires Plain(s[|marker| + 1..close]) && Plain(s[close + 1..])
    ensures LineEnd(s, |marker| + 1) == |s|
    ensures LastIndexOf(s, '}', |marker| + 1, |s|) == Some(close)
    ensures FirstOpening(s, marker, 0) == Some(0)
  {
    var a := |marker| + 1;
    forall j | a <= j < |s| ensures !IsLineTerminator(s[j]) {
      if j < close {
        assert s[j] == s[a..close][j - a];
      } else if j > close {
        assert s[j] == s[close + 1..][j - close - 1];
      }
    }
    LineEndAtEnd(s, a);
    forall j | close + 1 <= j < |s| ensures s[j] != '}' {
      assert s[j] == s[close + 1..][j - close - 1];
    }
    LastIndexSkips(s, '}', a, close + 1, |s|);
    assert s[0..a - 1] == marker;
    assert OpensAt(s, marker, 0);
  }

  /** The marker pattern matches a line that begins with `marker{name}` at its start. */
  lemma OpensAtFront(s: string, marker: string, name: string, rest: string)
    requires s == marker + "{" + name + "}" + rest
    requires Plain(name) && Plain(rest)
    ensures LineEnd(s, |marker| + 1) == |s|
    ensures LastIndexOf(s, '}', |marker| + 1, |s|) == Some(|marker| + 1 + |name|)
    ensures FirstOpening(s, marker, 0) == Some(0)
  {
    FrontParts(s, marker, name, rest);
    OpensAtFrontSliced(s, marker, |marker| + 1 + |name|);
  }

  /** Reading back a start marker without parameters gives its name and `""`. */
  lemma MatchStartWithoutParams(marker: string, name: string)
    requires Plain(name)
    ensures MatchStart(marker + "{" + name + "}", marker) == Some(StartMatch(name, ""))
  {
    var s := marker + "{" + name + "}";
    assert s == marker + "{" + name + "}" + "";
    OpensAtFront(s, marker, name, "");
    assert s[|marker| + 1..|marker| + 1 + |name|] == name;
  }

  lemma PlainBracketed(inner: string)
    requires Plain(inner)
    ensures Plain("[" + inner + "]")
  {
    var params := "[" + inner + "]";
    forall j | 0 <= j < |params| ensures !IsLineTerminator(params[j]) && params[j] != '}' {
      if 0 < j < |params| - 1 {
        assert params[j] == inner[j - 1];
      }
    }
  }

  /** What `MatchStart` computes when the pattern matches at the very start. */
  lemma MatchStartAtFront(s: string, marker: string, close: nat)
    requires FirstOpening(s, marker, 0) == Some(0)
    requires LineEnd(s, |marker| + 1) == |s|
    requires NameEnd(s, marker, 0) == close
    requires close + 1 < |s| && s[close + 1] == '[' && s[|s| - 1] == ']'
    ensures MatchStart(s, marker) == Some(StartMatch(s[|marker| + 1..close], s[close + 1..]))
  {
    assert LastIndexOf(s, ']', close + 2, |s|) == Some(|s| - 1);
    assert BracketGroup(s, close, |s|) == s[close + 1..];
  }

  lemma BracketedLineParts(marker: string, name: string, inner: string)
    ensures var s := marker + "{" + name + "}" + "[" + inner + "]";
      var close := |marker| + 1 + |name|;
      && s == marker + "{" + name + "}" + ("[" + inner + "]")
      && close + 1 < |s| && s[close] == '}' && s[close + 1] == '[' && s[|s| - 1] == ']'
      && s[close + 1..] == "[" + inner + "]"
      && s[|marker| + 1..close] == name
  {
  }

  /** Reading back a start marker with a bracket group gives its name and the group, brackets included. */
  lemma MatchStartWithParams(marker: string, name: string, inner: string)
    requires Plain(name) && Plain(inner)
    ensures MatchStart(marker + "{" + name + "}" + "[" + inner + "]", marker)
         == Some(StartMatch(name, "[" + inner + "]"))
  {
    var params := "[" + inner + "]";
    var s := marker + "{" + name + "}" + "[" + inner + "]";
    BracketedLineParts(marker, name, inner);
    PlainBracketed(inner);
    OpensAtFront(s, marker, name, params);
    MatchStartAtFront(s, marker, |marker| + 1 + |name|);
  }

  /** Reading back an end marker gives its name. */
  lemma MatchEndOfLine(marker: string, name: string)
    requires Plain(name)
    ensures MatchEnd(marker + "{" + name + "}", marker) == Some(name)
  {
    var s := marker + "{" + name + "}";
    assert s == marker + "{" + name + "}" + "";
    OpensAtFront(s, marker, name, "");
    assert s[|marker| + 1..|marker| + 1 + |name|] == name;
  }

  /** The marker paragraph an author writes: one text child holding the marker line. */
  function MarkerParagraph(text: string, line: Errors.Line): Node {
    Paragraph([Text(text)], line)
  }

  /**
    * A paragraph holding `marker` followed by text that starts and ends with a non-blank
    * character is marker-shaped, provided the marker itself does not start with a blank.
    */
  lemma MarkerParagraphIsShaped(marker: string, rest: string, line: Errors.Line)
    requires marker == [] || !IsJsWhitespace(marker[0])
    requires rest != [] && !IsJsWhitespace(rest[0]) && !IsJsWhitespace(rest[|rest| - 1])
    ensures IsMarkerShaped(MarkerParagraph(marker + rest, line), marker)
  {
    var t := marker + rest;
    assert t[0] == if marker == [] then rest[0] else marker[0];
    assert t[|t| - 1] == rest[|rest| - 1];
    TrimStartKeeps(t);
    TrimEndKeeps(t);
    assert Trim(t) == t;
    assert t[..|marker|] == marker;
  }

  /**
    * A marker line `marker{name}` made into a paragraph is marker-shaped and matches
    * with group 1 the name and no bracket group.
    */
  lemma BracketLineMatches(marker: string, name: string, line: Errors.Line)
    requires marker == [] || !IsJsWhitespace(marker[0])
    requires Plain(name)
    ensures var node := MarkerParagraph(marker + "{" + name + "}", line);
      && IsMarkerShaped(node, marker)
      && node.children[0].value == marker + "{" + name + "}"
      && MatchStart(node.children[0].value, marker) == Some(StartMatch(name, ""))
      && MatchEnd(node.children[0].value, marker) == Some(name)
  {
    assert marker + "{" + name + "}" == marker + ("{" + name + "}");
    MarkerParagraphIsShaped(marker, "{" + name + "}", line);
    MatchStartWithoutParams(marker, name);
    MatchEndOfLine(marker, name);
  }
}
