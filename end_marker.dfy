/** Recognising an end marker and checking it closes the innermost open block. */
module EndMarker {
  import opened Wrappers
  import opened Errors
  import opened Mdast
  import opened MarkerSyntax
  import opened PluginOptions
  import opened JsArrays
  import opened StartMarker

  /**
    * What analysing `node` as an end marker returns: `None` for "not a marker", or the
    * contents of the innermost open block. The checks run in the source's order: shape,
    * format, name, nesting against the top descriptor, a non-empty top buffer.
    * Neither stack is changed; the caller pops them.
    */
  function ParseEndMarker(node: Node, endMarker: string, o: Options,
                          blocksInfo: seq<BlockStartInfo>, buffer: seq<seq<Node>>)
    : (r: Result<Option<seq<Node>>, Error>)
    ensures r == Ok(None) <==> !IsMarkerShaped(node, endMarker)
    ensures IsMarkerShaped(node, endMarker) && MatchEnd(node.children[0].value, endMarker).None?
      ==> r == Err(EndFormat(LineOf(node)))
    ensures IsMarkerShaped(node, endMarker) && MatchEnd(node.children[0].value, endMarker).Some?
      ==> var name := MatchEnd(node.children[0].value, endMarker).value;
        && (!HasEnv(o, name) ==> r == Err(UnknownEnvironment(name, LineOf(node))))
        && (HasEnv(o, name) && blocksInfo == [] ==> r == Err(Nesting(None, name, LineOf(node))))
        && (HasEnv(o, name) && blocksInfo != [] && Last(blocksInfo).envName != name
            ==> r == Err(Nesting(Some((Last(blocksInfo).envName, Last(blocksInfo).line)), name, LineOf(node))))
        && (HasEnv(o, name) && blocksInfo != [] && Last(blocksInfo).envName == name && buffer == []
            ==> r == Err(UndefinedElement))
        && (HasEnv(o, name) && blocksInfo != [] && Last(blocksInfo).envName == name && buffer != [] && Last(buffer) == []
            ==> r == Err(EmptyBlock(Last(blocksInfo).line, LineOf(node))))
    ensures r.Ok? && r.value.Some? ==>
      && IsMarkerShaped(node, endMarker)
      && MatchEnd(node.children[0].value, endMarker).Some?
      && HasEnv(o, MatchEnd(node.children[0].value, endMarker).value)
      && blocksInfo != [] && Last(blocksInfo).envName == MatchEnd(node.children[0].value, endMarker).value
      && buffer != [] && r.value.value == Last(buffer) && r.value.value != []
  {
    if !IsMarkerShaped(node, endMarker) then Ok(None)
    else
      var line := LineOf(node);
      match MatchEnd(node.children[0].value, endMarker)
      case None => Err(EndFormat(line))
      case Some(name) =>
        if !HasEnv(o, name) then Err(UnknownEnvironment(name, line))
        else if blocksInfo == [] then Err(Nesting(None, name, line))
        else
          var top := Last(blocksInfo);
          if top.envName != name then Err(Nesting(Some((top.envName, top.line)), name, line))
          else if buffer == [] then Err(UndefinedElement)
          else if Last(buffer) == [] then Err(EmptyBlock(top.line, line))
          else Ok(Some(Last(buffer)))
  }

  /**
    * The end marker line `endMarker{name}` closing an open block of that environment
    * returns that block's buffered nodes.
    */
  lemma AcceptsEndLine(endMarker: string, name: string, line: Line, o: Options,
                       blocksInfo: seq<BlockStartInfo>, buffer: seq<seq<Node>>)
    requires endMarker == [] || !JsStrings.IsJsWhitespace(endMarker[0])
    requires Plain(name) && HasEnv(o, name)
    requires blocksInfo != [] && Last(blocksInfo).envName == name
    requires buffer != [] && Last(buffer) != []
    ensures ParseEndMarker(MarkerParagraph(endMarker + "{" + name + "}", line), endMarker, o, blocksInfo, buffer)
         == Ok(Some(Last(buffer)))
  {
    BracketLineMatches(endMarker, name, line);
  }

  /**
    * The end-marker analysis as written: the nesting test reads `blocksInfo[-1].envName`,
    * and index -1 of an array is `undefined`, so every well-formed end marker naming a
    * known environment throws a TypeError there.
    */
  function ParseEndMarkerAsWritten(node: Node, endMarker: string, o: Options,
                                   blocksInfo: seq<BlockStartInfo>, buffer: seq<seq<Node>>)
    : (r: Result<Option<seq<Node>>, Error>)
    ensures r.Ok? <==> !IsMarkerShaped(node, endMarker)
    ensures r.Ok? ==> r.value.None?
  {
    if !IsMarkerShaped(node, endMarker) then Ok(None)
    else
      var line := LineOf(node);
      match MatchEnd(node.children[0].value, endMarker)
      case None => Err(EndFormat(line))
      case Some(name) =>
        if !HasEnv(o, name) then Err(UnknownEnvironment(name, line))
        else
          match At(blocksInfo, -1)
          case None => Err(UndefinedElement)
          case Some(top) =>
            if top.envName != name then Err(Nesting(Some((top.envName, top.line)), name, line))
            else
              match At(buffer, -1)
              case None => Err(UndefinedElement)
              case Some(b) => if b == [] then Err(EmptyBlock(top.line, line)) else Ok(Some(b))
  }

  /**
    * As written, the end line `endMarker{name}` closing an open block of that environment
    * throws, where the corrected analysis (`AcceptsEndLine`) returns the block's nodes.
    */
  lemma ParseEndMarkerAsWrittenThrows(endMarker: string, name: string, line: Line, o: Options,
                                      blocksInfo: seq<BlockStartInfo>, buffer: seq<seq<Node>>)
    requires endMarker == [] || !JsStrings.IsJsWhitespace(endMarker[0])
    requires Plain(name) && HasEnv(o, name)
    ensures ParseEndMarkerAsWritten(MarkerParagraph(endMarker + "{" + name + "}", line), endMarker, o, blocksInfo, buffer)
         == Err(UndefinedElement)
  {
    BracketLineMatches(endMarker, name, line);
  }
}
