/** Rendering a proof block: bold "Proof: " in front, a black square at the end. */
module Proof {
  import opened Wrappers
  import opened Errors
  import opened Mdast
  import opened JsArrays
  import opened StartMarker
  import opened ParseEnv

  const ProofStart: string := "Proof: "

  /** The black square U+25A0 that closes a proof. */
  const ProofEnd: string := "\U{25A0}"

  /**
    * What parseProof returns: an error for a block that is not a proof or that is
    * empty, and otherwise the buffer with both texts spliced in.
    */
  function ProofResult(info: BlockStartInfo, buffer: seq<Node>): (r: Result<seq<Node>, Error>)
    ensures r == Err(WrongEnvironment(info.envName, info.line)) <==> info.envName != "proof"
    ensures r == Err(EmptyEnvironment(info.line)) <==> info.envName == "proof" && buffer == []
    ensures r.Ok? <==> info.envName == "proof" && buffer != []
    ensures r.Ok? ==> |r.value| == |buffer| + (if IsOther(buffer[0]) then 1 else 0) + (if IsOther(Last(buffer)) then 1 else 0)
    ensures r.Ok? ==> r.value[0].Paragraph? && r.value[0].children != [] && r.value[0].children[0] == Bold(ProofStart)
    ensures r.Ok? ==>
      && !Last(r.value).Text? && Last(r.value).children != []
      && Last(r.value).children[|Last(r.value).children| - 1] == Text(ProofEnd)
  {
    if info.envName != "proof" then Err(WrongEnvironment(info.envName, info.line))
    else if buffer == [] then Err(EmptyEnvironment(info.line))
    else
      var started := StartSplice(buffer, ProofStart);
      StartSpliceLast(buffer, ProofStart);
      var r := EndSplice(started, ProofEnd);
      assert r[0].Paragraph? && r[0].children != [] && r[0].children[0] == Bold(ProofStart) by {
        if |started| == 1 {
          assert r[0] == Last(r) && started[0] == Last(started);
          assert (started[0].children + [Text(ProofEnd)])[0] == started[0].children[0];
        } else {
          assert r[0] == r[..|started| - 1][0];
        }
      }
      Ok(r)
  }

  /**
    * parseProof, step by step: the two checks, then the start splice, then the end
    * splice on the spliced buffer.
    */
  method ParseProof(info: BlockStartInfo, buffer: seq<Node>) returns (r: Result<seq<Node>, Error>)
    ensures r == ProofResult(info, buffer)
  {
    if info.envName != "proof" {
      return Err(WrongEnvironment(info.envName, info.line));
    }
    if |buffer| == 0 {
      return Err(EmptyEnvironment(info.line));
    }
    var b := SpliceFirst(buffer, ProofStart);
    b := SpliceLast(b, ProofEnd);
    r := Ok(b);
  }

  /** A rendered proof reads as "Proof: ", the buffered text in order, then the black square. */
  lemma ProofTexts(info: BlockStartInfo, buffer: seq<Node>)
    requires ProofResult(info, buffer).Ok?
    ensures Texts(ProofResult(info, buffer).value) == [ProofStart] + Texts(buffer) + [ProofEnd]
  {
    StartSpliceTexts(buffer, ProofStart);
    EndSpliceTexts(StartSplice(buffer, ProofStart), ProofEnd);
  }

  /**
    * The proof renderer agrees with the general renderer given the proof's options:
    * start text "Proof:" without numbering, end text the black square, no name.
    */
  lemma ProofAgreesWithEnv(info: BlockStartInfo, buffer: seq<Node>)
    requires info.envName == "proof" && buffer != []
    requires info.addNumbering == Some(false) && info.envStartText == Some("Proof:")
    requires info.envEndText == Some(ProofEnd) && info.name.None?
    ensures EnvResult(info, buffer) == ProofResult(info, buffer)
  {
    assert !IsTrue(info.addNumbering) && !TextSet(info.name);
    assert StartText(info) == "Proof:" + " " == ProofStart;
    assert TextSet(info.envEndText);
  }

  /** With several buffered nodes, only the first and the last are changed. */
  lemma ProofKeepsMiddle(info: BlockStartInfo, buffer: seq<Node>, i: nat)
    requires ProofResult(info, buffer).Ok? && 0 < i < |buffer| - 1
    ensures ProofResult(info, buffer).value[i + (if IsOther(buffer[0]) then 1 else 0)] == buffer[i]
  {
    SplicesKeepMiddle(buffer, ProofStart, ProofEnd, i);
  }
}
