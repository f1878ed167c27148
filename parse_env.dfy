/**
  * Rendering an environment block: a bold start text spliced into the first buffered
  * node and an end text spliced into the last one.
  */
module ParseEnv {
  import opened Wrappers
  import opened Errors
  import opened Mdast
  import opened JsStrings
  import opened JsArrays
  import opened StartMarker

  /** JavaScript truthiness of an optional boolean. */
  predicate IsTrue(b: Option<bool>) {
    b == Some(true)
  }

  /** JavaScript truthiness of an optional number: defined and not 0. */
  predicate NumberSet(n: Option<int>) {
    n.Some? && n.value != 0
  }

  /** JavaScript truthiness of an optional string: defined and not empty. */
  predicate TextSet(s: Option<string>) {
    s.Some? && s.value != ""
  }

  /** `${s}` in a template literal: an undefined value renders as "undefined". */
  function RenderText(s: Option<string>): (r: string)
    ensures s.Some? ==> r == s.value
    ensures s.None? ==> r == "undefined"
  {
    match s
    case Some(t) => t
    case None => "undefined"
  }

  /** `${n}` in a template literal, for an integral number or undefined. */
  function RenderNumber(n: Option<int>): (r: string)
    ensures n.Some? ==> r == NumberToString(n.value)
    ensures n.None? ==> r == "undefined"
  {
    match n
    case Some(i) => NumberToString(i)
    case None => "undefined"
  }

  /**
    * The start text, built from its parts: the environment's start text, the number when
    * numbering is on, the name in parentheses when there is one, and a closing `" "`
    * for a proof or `". "` for anything else.
    */
  function StartText(info: BlockStartInfo): (text: string)
    ensures RenderText(info.envStartText) <= text
    ensures info.envName == "proof" ==> |text| >= 1 && text[|text| - 1] == ' '
    ensures info.envName != "proof" ==> |text| >= 2 && text[|text| - 2..] == ". "
  {
    var numbered :=
      if IsTrue(info.addNumbering) then RenderText(info.envStartText) + " " + RenderNumber(info.numbering)
      else RenderText(info.envStartText);
    var named := if TextSet(info.name) then numbered + " (" + info.name.value + ")" else numbered;
    if info.envName == "proof" then named + " " else named + ". "
  }

  /**
    * The start splice on a non-empty buffer: a paragraph gets the bold text as its first
    * child; text, emphasis or strong is wrapped in a new paragraph after the bold text;
    * any other node gets a new paragraph holding the bold text inserted before it.
    */
  function StartSplice(b: seq<Node>, text: string): (r: seq<Node>)
    requires b != []
    ensures |r| == |b| + (if IsOther(b[0]) then 1 else 0)
    ensures r[0].Paragraph? && r[0].children != [] && r[0].children[0] == Bold(text)
    ensures r[|r| - |b| + 1..] == b[1..]
    ensures b[0].Paragraph? ==> r[0] == Paragraph([Bold(text)] + b[0].children, b[0].line)
    ensures IsInline(b[0]) ==> r[0] == Paragraph([Bold(text), b[0]], None)
    ensures IsOther(b[0]) ==> r[0] == Paragraph([Bold(text)], None) && r[1..] == b
  {
    var first := b[0];
    if first.Paragraph? then [Paragraph([Bold(text)] + first.children, first.line)] + b[1..]
    else if IsInline(first) then [Paragraph([Bold(text), first], None)] + b[1..]
    else [Paragraph([Bold(text)], None)] + b
  }

  /**
    * The end splice on a non-empty buffer: a paragraph, emphasis or strong gets the text
    * as its last child; a text node is wrapped in a new paragraph before the text; any
    * other node gets a new paragraph holding the text appended after it.
    */
  function EndSplice(b: seq<Node>, text: string): (r: seq<Node>)
    requires b != []
    ensures |r| == |b| + (if IsOther(Last(b)) then 1 else 0)
    ensures r[..|b| - 1] == b[..|b| - 1]
    ensures !Last(r).Text? && Last(r).children != [] && Last(r).children[|Last(r).children| - 1] == Text(text)
    ensures Last(b).Paragraph? ==> Last(r) == Paragraph(Last(b).children + [Text(text)], Last(b).line)
    ensures Last(b).Emphasis? ==> Last(r) == Emphasis(Last(b).children + [Text(text)])
    ensures Last(b).Strong? ==> Last(r) == Strong(Last(b).children + [Text(text)])
    ensures Last(b).Text? ==> Last(r) == Paragraph([Last(b), Text(text)], None)
    ensures IsOther(Last(b)) ==> r == b + [Paragraph([Text(text)], None)]
  {
    var last := Last(b);
    var front := b[..|b| - 1];
    match last
    case Paragraph(cs, line) => front + [Paragraph(cs + [Text(text)], line)]
    case Emphasis(cs) => front + [Emphasis(cs + [Text(text)])]
    case Strong(cs) => front + [Strong(cs + [Text(text)])]
    case Text(_) => front + [Paragraph([last, Text(text)], None)]
    case Other(_, _) => b + [Paragraph([Text(text)], None)]
  }

  /** The start splice never changes whether the last node is a paragraph-or-inline node or not. */
  lemma StartSpliceLast(b: seq<Node>, text: string)
    requires b != []
    ensures IsOther(Last(StartSplice(b, text))) <==> IsOther(Last(b))
  {
    var r := StartSplice(b, text);
    if IsOther(b[0]) {
      assert Last(r) == r[1..][|b| - 1];
    } else if |b| > 1 {
      assert Last(r) == r[|r| - |b| + 1..][|b| - 2];
    }
  }

  /**
    * Both splices leave every node strictly between the first and the last in place,
    * shifted by one when a new paragraph was inserted in front.
    */
  lemma SplicesKeepMiddle(b: seq<Node>, startText: string, endText: string, i: nat)
    requires 0 < i < |b| - 1
    ensures var shift := if IsOther(b[0]) then 1 else 0;
      && i + shift < |StartSplice(b, startText)| - 1
      && StartSplice(b, startText)[i + shift] == b[i]
      && EndSplice(StartSplice(b, startText), endText)[i + shift] == b[i]
  {
    var r1 := StartSplice(b, startText);
    var shift := if IsOther(b[0]) then 1 else 0;
    assert r1[i + shift] == r1[|r1| - |b| + 1..][i - 1];
    var r2 := EndSplice(r1, endText);
    assert r2[i + shift] == r2[..|r1| - 1][i + shift];
  }

  /**
    * What parseEnv returns: the numbering error first, then the empty-block error, then
    * the buffer with the start text spliced in, and the end text too when it is set.
    */
  function EnvResult(info: BlockStartInfo, buffer: seq<Node>): (r: Result<seq<Node>, Error>)
    ensures r == Err(NumberingUndefined(info.startLine)) <==> IsTrue(info.addNumbering) && !NumberSet(info.numbering)
    ensures r == Err(EmptyEnvironment(info.startLine)) <==>
      !(IsTrue(info.addNumbering) && !NumberSet(info.numbering)) && buffer == []
    ensures r.Ok? <==> !(IsTrue(info.addNumbering) && !NumberSet(info.numbering)) && buffer != []
    ensures r.Ok? ==>
      |r.value| == |buffer| + (if IsOther(buffer[0]) then 1 else 0)
                            + (if TextSet(info.envEndText) && IsOther(Last(buffer)) then 1 else 0)
    ensures r.Ok? && !TextSet(info.envEndText) ==> r.value == StartSplice(buffer, StartText(info))
    ensures r.Ok? && TextSet(info.envEndText) ==>
      r.value == EndSplice(StartSplice(buffer, StartText(info)), info.envEndText.value)
  {
    if IsTrue(info.addNumbering) && !NumberSet(info.numbering) then Err(NumberingUndefined(info.startLine))
    else if buffer == [] then Err(EmptyEnvironment(info.startLine))
    else
      var started := StartSplice(buffer, StartText(info));
      StartSpliceLast(buffer, StartText(info));
      if !TextSet(info.envEndText) then Ok(started)
      else Ok(EndSplice(started, info.envEndText.value))
  }

  /** `buffer[0].children.unshift(…)`, `buffer[0] = …` or `buffer.unshift(…)`, on a non-empty buffer. */
  method SpliceFirst(buffer: seq<Node>, startText: string) returns (b: seq<Node>)
    requires buffer != []
    ensures b == StartSplice(buffer, startText)
  {
    b := buffer;
    if b[0].Paragraph? {
      b := b[0 := Paragraph([Bold(startText)] + b[0].children, b[0].line)];
    } else if b[0].Text? || b[0].Emphasis? || b[0].Strong? {
      b := b[0 := Paragraph([Bold(startText), b[0]], None)];
    } else {
      b := [Paragraph([Bold(startText)], None)] + b;
    }
  }

  /** `end.children.push(…)` or a new `end`, then `buffer[buffer.length - 1] = end`. */
  method SpliceLast(buffer: seq<Node>, endText: string) returns (b: seq<Node>)
    requires buffer != []
    ensures b == EndSplice(buffer, endText)
  {
    b := buffer;
    var end := b[|b| - 1];
    if end.Paragraph? {
      end := Paragraph(end.children + [Text(endText)], end.line);
    } else if end.Emphasis? {
      end := Emphasis(end.children + [Text(endText)]);
    } else if end.Strong? {
      end := Strong(end.children + [Text(endText)]);
    } else if end.Text? {
      end := Paragraph([end, Text(endText)], None);
    } else {
      end := Paragraph([Text(endText)], None);
      b := b + [end];
    }
    b := b[|b| - 1 := end];
  }

  /**
    * parseEnv, step by step as the source does it: check, build the start text, splice
    * the first node, then splice the last node unless there is no end text.
    */
  method ParseEnv(info: BlockStartInfo, buffer: seq<Node>) returns (r: Result<seq<Node>, Error>)
    ensures r == EnvResult(info, buffer)
  {
    if IsTrue(info.addNumbering) && !NumberSet(info.numbering) {
      return Err(NumberingUndefined(info.startLine));
    }
    if |buffer| == 0 {
      return Err(EmptyEnvironment(info.startLine));
    }
    var startText := if IsTrue(info.addNumbering)
      then RenderText(info.envStartText) + " " + RenderNumber(info.numbering)
      else RenderText(info.envStartText);
    startText := if TextSet(info.name) then startText + " (" + info.name.value + ")" else startText;
    startText := if info.envName == "proof" then startText + " " else startText + ". ";
    var b := SpliceFirst(buffer, startText);
    if !TextSet(info.envEndText) {
      return Ok(b);
    }
    b := SpliceLast(b, info.envEndText.value);
    r := Ok(b);
  }

  /** The start splice adds the start text in front of the buffer's text and nothing else. */
  lemma StartSpliceTexts(b: seq<Node>, text: string)
    requires b != []
    ensures Texts(StartSplice(b, text)) == [text] + Texts(b)
  {
    if b[0].Paragraph? {
      ParagraphStartTexts(b, text);
    } else if IsInline(b[0]) {
      InlineStartTexts(b, text);
    } else {
      OtherStartTexts(b, text);
    }
  }

  lemma BoldTexts(text: string)
    ensures NodeTexts(Bold(text)) == [text]
  {
    TextsSingle(Text(text));
  }

  lemma ConsTexts(n: Node, rest: seq<Node>)
    ensures Texts([n] + rest) == NodeTexts(n) + Texts(rest)
  {
    TextsAppend([n], rest);
    TextsSingle(n);
  }

  /** Replacing the first node by one that reads `text` first, then the old node. */
  lemma PrependTexts(first: Node, n: Node, rest: seq<Node>, text: string)
    requires NodeTexts(first) == [text] + NodeTexts(n)
    ensures Texts([first] + rest) == [text] + Texts([n] + rest)
  {
    ConsTexts(first, rest);
    ConsTexts(n, rest);
  }

  lemma ReplacedFirstTexts(r: seq<Node>, b: seq<Node>, first: Node, text: string)
    requires b != [] && |r| == |b| && r[0] == first && r[1..] == b[1..]
    requires NodeTexts(first) == [text] + NodeTexts(b[0])
    ensures Texts(r) == [text] + Texts(b)
  {
    assert r == [first] + b[1..];
    assert b == [b[0]] + b[1..];
    PrependTexts(first, b[0], b[1..], text);
  }

  lemma ParagraphFirstTexts(p: Node, text: string)
    requires p.Paragraph?
    ensures NodeTexts(Paragraph([Bold(text)] + p.children, p.line)) == [text] + NodeTexts(p)
  {
    ConsTexts(Bold(text), p.children);
    BoldTexts(text);
  }

  lemma InlineFirstTexts(n: Node, text: string)
    ensures NodeTexts(Paragraph([Bold(text), n], None)) == [text] + NodeTexts(n)
  {
    assert [Bold(text), n] == [Bold(text)] + [n];
    ConsTexts(Bold(text), [n]);
    TextsSingle(n);
    BoldTexts(text);
  }

  lemma ParagraphStartTexts(b: seq<Node>, text: string)
    requires b != [] && b[0].Paragraph?
    ensures Texts(StartSplice(b, text)) == [text] + Texts(b)
  {
    var first := Paragraph([Bold(text)] + b[0].children, b[0].line);
    var r := StartSplice(b, text);
    assert !IsOther(b[0]) && |r| == |b|;
    assert r[0] == first && r[1..] == b[1..];
    ParagraphFirstTexts(b[0], text);
    ReplacedFirstTexts(r, b, first, text);
  }

  lemma InlineStartTexts(b: seq<Node>, text: string)
    requires b != [] && IsInline(b[0])
    ensures Texts(StartSplice(b, text)) == [text] + Texts(b)
  {
    var first := Paragraph([Bold(text), b[0]], None);
    var r := StartSplice(b, text);
    assert !IsOther(b[0]) && |r| == |b|;
    assert r[0] == first && r[1..] == b[1..];
    InlineFirstTexts(b[0], text);
    ReplacedFirstTexts(r, b, first, text);
  }

  lemma OtherStartTexts(b: seq<Node>, text: string)
    requires b != [] && IsOther(b[0])
    ensures Texts(StartSplice(b, text)) == [text] + Texts(b)
  {
    var r := StartSplice(b, text);
    assert r == [r[0]] + b;
    ConsTexts(r[0], b);
    TextsSingle(Bold(text));
    BoldTexts(text);
  }

  /** The end splice adds the end text after the buffer's text and nothing else. */
  lemma EndSpliceTexts(b: seq<Node>, text: string)
    requires b != []
    ensures Texts(EndSplice(b, text)) == Texts(b) + [text]
  {
    var r := EndSplice(b, text);
    if IsOther(Last(b)) {
      var closing := Paragraph([Text(text)], None);
      assert r == b + [closing];
      TextsAppend(b, [closing]);
      TextsSingle(closing);
      TextsSingle(Text(text));
    } else {
      ClosedLastTexts(b, text);
      ReplacedLastTexts(r, b, Last(r), text);
    }
  }

  /** The new last node of an end splice that did not add a paragraph reads the old one, then `text`. */
  lemma ClosedLastTexts(b: seq<Node>, text: string)
    requires b != [] && !IsOther(Last(b))
    ensures NodeTexts(Last(EndSplice(b, text))) == NodeTexts(Last(b)) + [text]
  {
    var last := Last(b);
    TextsSingle(Text(text));
    if last.Text? {
      assert Last(EndSplice(b, text)) == Paragraph([last] + [Text(text)], None);
      TextsAppend([last], [Text(text)]);
      TextsSingle(last);
    } else {
      TextsAppend(last.children, [Text(text)]);
    }
  }

  /** Replacing the last node by one that reads the old node, then `text`. */
  lemma ReplacedLastTexts(r: seq<Node>, b: seq<Node>, last: Node, text: string)
    requires b != [] && |r| == |b| && r[..|b| - 1] == b[..|b| - 1] && Last(r) == last
    requires NodeTexts(last) == NodeTexts(Last(b)) + [text]
    ensures Texts(r) == Texts(b) + [text]
  {
    var front := b[..|b| - 1];
    assert r == front + [last];
    assert b == front + [Last(b)];
    TextsAppend(front, [last]);
    TextsAppend(front, [Last(b)]);
    TextsSingle(last);
    TextsSingle(Last(b));
  }

  /**
    * A rendered block reads as the start text, then the buffered text in order, then the
    * end text when one is set.
    */
  lemma EnvResultTexts(info: BlockStartInfo, buffer: seq<Node>)
    requires EnvResult(info, buffer).Ok?
    ensures Texts(EnvResult(info, buffer).value)
         == [StartText(info)] + Texts(buffer) + (if TextSet(info.envEndText) then [info.envEndText.value] else [])
  {
    StartSpliceTexts(buffer, StartText(info));
    if TextSet(info.envEndText) {
      EndSpliceTexts(StartSplice(buffer, StartText(info)), info.envEndText.value);
    }
  }

  /** What follows the number in the start text: the optional ` (name)` and the closing text. */
  function StartTail(info: BlockStartInfo): (tail: string)
    ensures tail != [] && (tail[0] == ' ' || tail[0] == '.')
  {
    var close := if info.envName == "proof" then " " else ". ";
    if TextSet(info.name) then " (" + info.name.value + ")" + close else close
  }

  /** With numbering on, the start text is the text, a space, the numeral and the tail. */
  lemma NumberedStartText(info: BlockStartInfo, t: string, n: int)
    requires IsTrue(info.addNumbering) && info.numbering == Some(n) && info.envStartText == Some(t)
    ensures StartText(info) == t + " " + NumberToString(n) + StartTail(info)
  {
  }

  /**
    * With numbering on, the start text is the environment's text, a space, and a numeral
    * that `parseInt` reads back as the block's number.
    */
  lemma StartTextShowsNumber(info: BlockStartInfo, t: string, n: int)
    requires IsTrue(info.addNumbering) && info.numbering == Some(n) && info.envStartText == Some(t)
    ensures |StartText(info)| > |t| + 1
    ensures StartText(info)[..|t| + 1] == t + " "
    ensures ParseInt(StartText(info)[|t| + 1..]) == Int(n)
  {
    var numeral := NumberToString(n);
    var tail := StartTail(info);
    NumberedStartText(info, t, n);
    var whole := t + " " + (numeral + tail);
    assert StartText(info) == whole;
    assert whole[|t| + 1..] == numeral + tail;
    assert whole[..|t| + 1] == t + " ";
    ParseIntOfNumber(n, tail);
  }

  /**
    * A rendered block keeps every buffered node strictly between the first and the last,
    * in order.
    */
  lemma EnvResultKeepsMiddle(info: BlockStartInfo, buffer: seq<Node>, i: nat)
    requires EnvResult(info, buffer).Ok? && 0 < i < |buffer| - 1
    ensures EnvResult(info, buffer).value[i + (if IsOther(buffer[0]) then 1 else 0)] == buffer[i]
  {
    SplicesKeepMiddle(buffer, StartText(info), if TextSet(info.envEndText) then info.envEndText.value else "", i);
  }

  /**
    * With numbering off and no custom name, the start text is the environment's text
    * followed only by the closing `" "` (proof) or `". "` (anything else): no number.
    */
  lemma StartTextUnnumbered(info: BlockStartInfo, t: string)
    requires !IsTrue(info.addNumbering) && info.envStartText == Some(t) && !TextSet(info.name)
    ensures StartText(info) == t + (if info.envName == "proof" then " " else ". ")
  {
  }

  /** A custom name appears in parentheses right before the closing text. */
  lemma StartTextNamed(info: BlockStartInfo, n: string)
    requires info.name == Some(n) && n != ""
    ensures var close := if info.envName == "proof" then " " else ". ";
      var tail := " (" + n + ")" + close;
      |tail| <= |StartText(info)| && StartText(info)[|StartText(info)| - |tail|..] == tail
  {
  }
}
