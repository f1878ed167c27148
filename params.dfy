/**
  * The inline parameter parser: every `key="value"` in a bracket text, in order, sets
  * one of four fields of a parameter record.
  */
module ParamParser {
  import opened Wrappers
  import opened Errors
  import opened JsStrings

  /** The parameter record; `None` is a field no parameter set. */
  datatype Params = Params(
    envStartText: Option<string>,
    envEndText: Option<string>,
    numbering: Option<ParsedInt>,
    addNumbering: Option<bool>)

  const NoParams: Params := Params(None, None, None, None)

  /** `\w` of a regular expression without the unicode flag. */
  predicate IsWordChar(c: char) {
    ('a' <= c <= 'z') || ('A' <= c <= 'Z') || ('0' <= c <= '9') || c == '_'
  }

  predicate IsWord(s: string) {
    forall i :: 0 <= i < |s| ==> IsWordChar(s[i])
  }

  predicate QuoteFree(s: string) {
    forall i :: 0 <= i < |s| ==> s[i] != '"'
  }

  /** The length of the longest run of word characters at the front of `s`. */
  function WordRun(s: string): (n: nat)
    ensures n <= |s| && IsWord(s[..n])
    ensures n < |s| ==> !IsWordChar(s[n])
  {
    if s != [] && IsWordChar(s[0]) then
      var k := WordRun(s[1..]);
      assert s[..k + 1] == [s[0]] + s[1..][..k];
      k + 1
    else 0
  }

  /** The length of the longest quote-free prefix of `s`. */
  function QuoteRun(s: string): (n: nat)
    ensures n <= |s| && QuoteFree(s[..n])
    ensures n < |s| ==> s[n] == '"'
  {
    if s != [] && s[0] != '"' then
      var k := QuoteRun(s[1..]);
      assert s[..k + 1] == [s[0]] + s[1..][..k];
      k + 1
    else 0
  }

  /** The text one match covers. */
  function MatchText(key: string, value: string): string {
    key + "=\"" + value + "\""
  }

  /**
    * The match of `(\w+)="([^"]*)"` starting at the front of `s`, as its key and value:
    * `\w+` takes the whole word run, since a shorter run is followed by a word
    * character and not by `=`, and `[^"]*` runs to the first quote.
    */
  function MatchHere(s: string): (r: Option<(string, string)>)
    ensures r.Some? ==>
      && r.value.0 != [] && IsWord(r.value.0) && QuoteFree(r.value.1)
      && |MatchText(r.value.0, r.value.1)| <= |s|
      && s[..|MatchText(r.value.0, r.value.1)|] == MatchText(r.value.0, r.value.1)
  {
    var k := WordRun(s);
    if k == 0 || |s| < k + 2 || s[k] != '=' || s[k + 1] != '"' then None
    else
      var rest := s[k + 2..];
      var v := QuoteRun(rest);
      if v == |rest| then None
      else
        assert s[..k + v + 3] == s[..k] + "=\"" + rest[..v] + "\"";
        Some((s[..k], rest[..v]))
  }

  /**
    * `s.match(/(\w+)="([^"]*)"/g)`: the matches from left to right, each search
    * resuming where the previous match ended, as key/value pairs.
    */
  function AllMatches(s: string): (ms: seq<(string, string)>)
    ensures forall i :: 0 <= i < |ms| ==> ms[i].0 != [] && IsWord(ms[i].0) && QuoteFree(ms[i].1)
    decreases |s|
  {
    if s == [] then []
    else
      match MatchHere(s)
      case None => AllMatches(s[1..])
      case Some((k, v)) => [(k, v)] + AllMatches(s[|MatchText(k, v)|..])
  }

  /** The matched texts, as the array `match` returns them. */
  function MatchTexts(s: string): (ts: seq<string>)
    ensures |ts| == |AllMatches(s)|
  {
    var ms := AllMatches(s);
    seq(|ms|, i requires 0 <= i < |ms| => MatchText(ms[i].0, ms[i].1))
  }

  /** `String.prototype.indexOf` for one character: the first index, or -1. */
  function IndexOf(s: string, c: char): (r: int)
    ensures -1 <= r < |s|
    ensures r == -1 <==> forall i :: 0 <= i < |s| ==> s[i] != c
    ensures r >= 0 ==> s[r] == c && forall i :: 0 <= i < r ==> s[i] != c
  {
    if s == [] then -1
    else if s[0] == c then 0
    else
      var k := IndexOf(s[1..], c);
      if k == -1 then -1 else k + 1
  }

  /** The four parameters the parser knows. */
  predicate KnownKey(key: string) {
    key == "envStartText" || key == "envEndText" || key == "numbering" || key == "addNumbering"
  }

  /** One case of the `switch`: set the field the key names, leaving the others. */
  function Assign(p: Params, key: string, value: string): (r: Params)
    requires KnownKey(key)
    ensures key == "envStartText" ==> r == p.(envStartText := Some(value))
    ensures key == "envEndText" ==> r == p.(envEndText := Some(value))
    ensures key == "numbering" ==> r == p.(numbering := Some(ParseInt(value)))
    ensures key == "addNumbering" ==> r == p.(addNumbering := Some(value == "true"))
  {
    if key == "envStartText" then p.(envStartText := Some(value))
    else if key == "envEndText" then p.(envEndText := Some(value))
    else if key == "numbering" then p.(numbering := Some(ParseInt(value)))
    else p.(addNumbering := Some(value == "true"))
  }

  /** The `forEach` over the matches: fields assigned in order, stopped by the first unknown key. */
  function Collect(ms: seq<(string, string)>, p: Params, line: int): (r: Result<Params, Error>)
    ensures r.Ok? <==> AllKnown(ms)
    ensures r.Err? ==> exists i :: 0 <= i < |ms| && !KnownKey(ms[i].0) && r.error == UnknownParameter(ms[i].0, line)
    decreases |ms|
  {
    if ms == [] then Ok(p)
    else if !KnownKey(ms[0].0) then Err(UnknownParameter(ms[0].0, line))
    else Collect(ms[1..], Assign(p, ms[0].0, ms[0].1), line)
  }

  /** What parseParams returns for a bracket text: the empty record when nothing matches. */
  function ParamsOf(params: string, line: int): (r: Result<Params, Error>)
    ensures AllMatches(params) == [] ==> r == Ok(NoParams)
    ensures r.Ok? <==> AllKnown(AllMatches(params))
  {
    var ms := AllMatches(params);
    if ms == [] then Ok(NoParams) else Collect(ms, NoParams, line)
  }

  /** Splitting a matched text at its first `=`: the key before it, the value between the quotes. */
  lemma SplitMatchText(key: string, value: string)
    requires key != [] && IsWord(key)
    ensures var t := MatchText(key, value);
      && IndexOf(t, '=') == |key|
      && t[..|key|] == key
      && |key| + 2 <= |t| - 1
      && t[|key| + 2..|t| - 1] == value
  {
    var t := MatchText(key, value);
    assert t[|key|] == '=';
    assert forall i :: 0 <= i < |key| ==> t[i] == key[i];
    assert t[..|key|] == key;
    assert t[|key| + 2..|t| - 1] == value;
  }

  /** parseParams, as the source does it: match, then walk the matches with a switch per key. */
  method ParseParams(params: string, line: int) returns (r: Result<Params, Error>)
    ensures r == ParamsOf(params, line)
  {
    var matches := MatchTexts(params);
    if |matches| == 0 {
      return Ok(NoParams);
    }
    ghost var ms := AllMatches(params);
    var parsed := NoParams;
    var i := 0;
    while i < |matches|
      invariant 0 <= i <= |matches|
      invariant Collect(ms, NoParams, line) == Collect(ms[i..], parsed, line)
    {
      var param := matches[i];
      SplitMatchText(ms[i].0, ms[i].1);
      var equalIndex := IndexOf(param, '=');
      var key := param[..equalIndex];
      var value := param[equalIndex + 2..|param| - 1];
      assert ms[i..][0] == (key, value) && ms[i..][1..] == ms[i + 1..];
      if key == "envStartText" {
        parsed := parsed.(envStartText := Some(value));
      } else if key == "envEndText" {
        parsed := parsed.(envEndText := Some(value));
      } else if key == "numbering" {
        parsed := parsed.(numbering := Some(ParseInt(value)));
      } else if key == "addNumbering" {
        parsed := parsed.(addNumbering := Some(value == "true"));
      } else {
        return Err(UnknownParameter(key, line));
      }
      i := i + 1;
    }
    r := Ok(parsed);
  }

  /** A match is found at the front of any text that starts with a well-formed `key="value"`. */
  lemma MatchHereComplete(key: string, value: string, rest: string)
    requires key != [] && IsWord(key) && QuoteFree(value)
    ensures MatchHere(MatchText(key, value) + rest) == Some((key, value))
  {
    var s := MatchText(key, value) + rest;
    var k := |key|;
    var after := "=\"" + value + "\"" + rest;
    assert s == key + after;
    WordRunOf(key, after);
    assert WordRun(s) == k;
    assert s[k] == '=' && s[k + 1] == '"';
    var tail := s[k + 2..];
    assert tail == value + ("\"" + rest);
    QuoteRunOf(value, "\"" + rest);
    assert QuoteRun(tail) == |value| < |tail|;
    assert tail[..|value|] == value;
    assert s[..k] == key;
  }

  lemma {:induction false} WordRunOf(w: string, t: string)
    requires IsWord(w) && t != [] && !IsWordChar(t[0])
    ensures WordRun(w + t) == |w|
    decreases |w|
  {
    if w == [] {
      assert w + t == t;
    } else {
      assert (w + t)[1..] == w[1..] + t;
      WordRunOf(w[1..], t);
    }
  }

  lemma {:induction false} QuoteRunOf(v: string, t: string)
    requires QuoteFree(v) && t != [] && t[0] == '"'
    ensures QuoteRun(v + t) == |v|
    decreases |v|
  {
    if v == [] {
      assert v + t == t;
    } else {
      assert (v + t)[1..] == v[1..] + t;
      QuoteRunOf(v[1..], t);
    }
  }

  /** A word run ends at the first character that is not a word character. */
  lemma {:induction false} WordRunStops(t: string, i: nat)
    requires i < |t| && !IsWordChar(t[i])
    ensures WordRun(t) <= i
    decreases i
  {
    if i > 0 && IsWordChar(t[0]) {
      assert t[1..][i - 1] == t[i];
      WordRunStops(t[1..], i - 1);
    }
  }

  /** The bracket text a list of parameters is written as: `key="value"` items separated by spaces. */
  function Encode(ps: seq<(string, string)>): string
    decreases |ps|
  {
    if ps == [] then ""
    else if |ps| == 1 then MatchText(ps[0].0, ps[0].1)
    else MatchText(ps[0].0, ps[0].1) + " " + Encode(ps[1..])
  }

  predicate WellFormed(ps: seq<(string, string)>) {
    forall i :: 0 <= i < |ps| ==> ps[i].0 != [] && IsWord(ps[i].0) && QuoteFree(ps[i].1)
  }

  /** A well-formed `key="value"` at the front is the first match, and matching resumes after it. */
  lemma AllMatchesFront(key: string, value: string, rest: string)
    requires key != [] && IsWord(key) && QuoteFree(value)
    ensures AllMatches(MatchText(key, value) + rest) == [(key, value)] + AllMatches(rest)
  {
    var t := MatchText(key, value);
    MatchHereComplete(key, value, rest);
    assert (t + rest)[|t|..] == rest;
  }

  /** A list of two or more parameters is written as the first, a space, and the rest. */
  lemma EncodeCons(ps: seq<(string, string)>)
    requires |ps| > 1
    ensures Encode(ps) == MatchText(ps[0].0, ps[0].1) + (" " + Encode(ps[1..]))
  {
  }

  lemma WellFormedTail(ps: seq<(string, string)>)
    requires ps != [] && WellFormed(ps)
    ensures WellFormed(ps[1..])
  {
    forall i | 0 <= i < |ps| - 1 ensures ps[1..][i] == ps[i + 1] { }
  }

  /** The inductive step of the round trip: the first item is matched, then the space is skipped. */
  lemma EncodeConsRoundTrip(ps: seq<(string, string)>)
    requires |ps| > 1 && WellFormed(ps)
    requires AllMatches(Encode(ps[1..])) == ps[1..]
    ensures AllMatches(Encode(ps)) == ps
  {
    var tail := Encode(ps[1..]);
    EncodeCons(ps);
    AllMatchesFront(ps[0].0, ps[0].1, " " + tail);
    IgnoresText(" ", tail);
    assert ps == [ps[0]] + ps[1..];
  }

  /** Matching a written parameter list gives back the list, in order. */
  lemma {:induction false} EncodeRoundTrip(ps: seq<(string, string)>)
    requires WellFormed(ps)
    ensures AllMatches(Encode(ps)) == ps
    decreases |ps|
  {
    if |ps| == 1 {
      AllMatchesFront(ps[0].0, ps[0].1, "");
      assert Encode(ps) == MatchText(ps[0].0, ps[0].1) + "";
    } else if |ps| > 1 {
      WellFormedTail(ps);
      EncodeRoundTrip(ps[1..]);
      EncodeConsRoundTrip(ps);
    }
  }

  /**
    * Text outside the matches is skipped: a prefix without `=` whose last character
    * is not a word character changes nothing.
    */
  lemma {:induction false} IgnoresText(junk: string, s: string)
    requires forall i :: 0 <= i < |junk| ==> junk[i] != '='
    requires junk == [] || !IsWordChar(junk[|junk| - 1])
    ensures AllMatches(junk + s) == AllMatches(s)
    decreases |junk|
  {
    if junk != [] {
      var t := junk + s;
      var k := WordRun(t);
      assert t[|junk| - 1] == junk[|junk| - 1];
      WordRunStops(t, |junk| - 1);
      if k > 0 {
        assert t[k] == junk[k];
      }
      assert MatchHere(t).None?;
      assert t[1..] == junk[1..] + s;
      IgnoresText(junk[1..], s);
    } else {
      assert junk + s == s;
    }
  }

  /** Every key of the list is one of the four. */
  predicate AllKnown(ms: seq<(string, string)>) {
    forall i :: 0 <= i < |ms| ==> KnownKey(ms[i].0)
  }

  /** The value of the last pair with the given key. */
  function LastValue(ms: seq<(string, string)>, key: string): (r: Option<string>)
    ensures r.None? ==> forall i :: 0 <= i < |ms| ==> ms[i].0 != key
    ensures r.Some? ==>
      exists i :: 0 <= i < |ms| && ms[i] == (key, r.value) && (forall j :: i < j < |ms| ==> ms[j].0 != key)
    decreases |ms|
  {
    if ms == [] then None
    else
      var later := LastValue(ms[1..], key);
      assert forall i :: 1 <= i < |ms| ==> ms[i] == ms[1..][i - 1];
      if later.Some? then
        var i :| 0 <= i < |ms[1..]| && ms[1..][i] == (key, later.value)
          && (forall j :: i < j < |ms[1..]| ==> ms[1..][j].0 != key);
        assert ms[i + 1] == (key, later.value);
        later
      else if ms[0].0 == key then Some(ms[0].1)
      else None
  }

  /** A field the list sets takes its last value; a field it does not set keeps the old one. */
  function Overridden(ms: seq<(string, string)>, p: Params): Params {
    Params(
      if LastValue(ms, "envStartText").Some? then LastValue(ms, "envStartText") else p.envStartText,
      if LastValue(ms, "envEndText").Some? then LastValue(ms, "envEndText") else p.envEndText,
      if LastValue(ms, "numbering").Some? then Some(ParseInt(LastValue(ms, "numbering").value)) else p.numbering,
      if LastValue(ms, "addNumbering").Some? then Some(LastValue(ms, "addNumbering").value == "true") else p.addNumbering)
  }

  /**
    * A list of known keys is accepted, and each field takes the value of the last
    * pair naming it; fields no pair names keep their value.
    */
  lemma {:induction false} CollectAllKnown(ms: seq<(string, string)>, p: Params, line: int)
    requires AllKnown(ms)
    ensures Collect(ms, p, line) == Ok(Overridden(ms, p))
    decreases |ms|
  {
    if ms != [] {
      var q := Assign(p, ms[0].0, ms[0].1);
      assert AllKnown(ms[1..]) by {
        forall i | 0 <= i < |ms[1..]| ensures KnownKey(ms[1..][i].0) {
          assert ms[1..][i] == ms[i + 1];
        }
      }
      CollectAllKnown(ms[1..], q, line);
    }
  }

  /** The first unknown key stops the walk with an error naming that key and the line. */
  lemma {:induction false} CollectFirstUnknown(ms: seq<(string, string)>, p: Params, line: int, i: nat)
    requires i < |ms| && !KnownKey(ms[i].0)
    requires forall j :: 0 <= j < i ==> KnownKey(ms[j].0)
    ensures Collect(ms, p, line) == Err(UnknownParameter(ms[i].0, line))
    decreases i
  {
    if i > 0 {
      assert ms[1..][i - 1] == ms[i];
      assert forall j :: 0 <= j < i - 1 ==> ms[1..][j] == ms[j + 1];
      CollectFirstUnknown(ms[1..], Assign(p, ms[0].0, ms[0].1), line, i - 1);
    }
  }

  /** A bracket text whose matches all use known keys sets each field to its last value. */
  lemma ParamsAccepted(params: string, line: int)
    requires AllKnown(AllMatches(params))
    ensures ParamsOf(params, line) == Ok(Overridden(AllMatches(params), NoParams))
  {
    CollectAllKnown(AllMatches(params), NoParams, line);
  }

  /** A bracket text with an unknown key is rejected, naming the first unknown key. */
  lemma ParamsRejected(params: string, line: int, i: nat)
    requires i < |AllMatches(params)| && !KnownKey(AllMatches(params)[i].0)
    requires forall j :: 0 <= j < i ==> KnownKey(AllMatches(params)[j].0)
    ensures ParamsOf(params, line) == Err(UnknownParameter(AllMatches(params)[i].0, line))
  {
    CollectFirstUnknown(AllMatches(params), NoParams, line, i);
  }

  /** A `numbering` value made of digits sets the number those digits denote. */
  lemma NumberingIsDecimal(p: Params, digits: string)
    requires |digits| > 0 && AllDigits(digits)
    ensures Assign(p, "numbering", digits).numbering == Some(Int(DigitsValue(digits)))
  {
    assert digits + [] == digits;
    ParseIntUnsigned(digits, []);
  }

  /** The four parameters in the usual order. */
  function FourParams(start: string, end: string, numbering: string, flag: string): seq<(string, string)> {
    [("envStartText", start), ("envEndText", end), ("numbering", numbering), ("addNumbering", flag)]
  }

  lemma FourParamsMatch(start: string, end: string, numbering: string, flag: string)
    requires QuoteFree(start) && QuoteFree(end) && QuoteFree(numbering) && QuoteFree(flag)
    ensures AllMatches(Encode(FourParams(start, end, numbering, flag))) == FourParams(start, end, numbering, flag)
  {
    var ps := FourParams(start, end, numbering, flag);
    assert WellFormed(ps);
    EncodeRoundTrip(ps);
  }

  /**
    * The four parameters written out in the usual order are read back: both texts as
    * written, the number parsed, and the flag true exactly for "true".
    */
  lemma AllFourParameters(start: string, end: string, numbering: string, flag: string, line: int)
    requires QuoteFree(start) && QuoteFree(end) && QuoteFree(numbering) && QuoteFree(flag)
    ensures ParamsOf(Encode(FourParams(start, end, numbering, flag)), line)
         == Ok(Params(Some(start), Some(end), Some(ParseInt(numbering)), Some(flag == "true")))
  {
    var ps := FourParams(start, end, numbering, flag);
    FourParamsMatch(start, end, numbering, flag);
    assert AllKnown(ps);
    ParamsAccepted(Encode(ps), line);
    FourParamsRead(start, end, numbering, flag);
  }

  lemma FourParamsRead(start: string, end: string, numbering: string, flag: string)
    ensures Overridden(FourParams(start, end, numbering, flag), NoParams)
         == Params(Some(start), Some(end), Some(ParseInt(numbering)), Some(flag == "true"))
  {
    var ps := FourParams(start, end, numbering, flag);
    LastValueOfUnique(ps, 0);
    LastValueOfUnique(ps, 1);
    LastValueOfUnique(ps, 2);
    LastValueOfUnique(ps, 3);
  }

  /** A key that occurs once has that occurrence's value as its last value. */
  lemma LastValueOfUnique(ms: seq<(string, string)>, i: nat)
    requires i < |ms|
    requires forall j :: 0 <= j < |ms| && j != i ==> ms[j].0 != ms[i].0
    ensures LastValue(ms, ms[i].0) == Some(ms[i].1)
  {
  }
}
