/**
 * Applying a rendered header to one file: route by suffix, set a shebang line
 * apart, find an existing header block, then skip, replace or insert.
 * The file is a value (whether the path is a regular file, its name, its
 * text); the result is the outcome and the text the file holds afterwards.
 */
module Application {
  import opened Wrappers
  import opened PyStr
  import opened Symbols
  import opened Registry
  import opened Template
  import opened Render
  import opened Detect

  datatype Outcome = Applied | Skipped | Unsupported

  /** The outcome of one application and the file's text afterwards. */
  datatype Run = Run(outcome: Outcome, content: string)

  /** The exception the code as written raises on a file with no line after the shebang. */
  datatype PyError = IndexError

  /** The suffix lists of the headers, in order. */
  function SuffixLists(hs: seq<RenderedHeader>): (r: seq<seq<string>>)
    ensures |r| == |hs| && forall i :: 0 <= i < |hs| ==> r[i] == Extensions(hs[i].family)
  {
    seq(|hs|, i requires 0 <= i < |hs| => Extensions(hs[i].family))
  }

  /** Position of the header a file name routes to: the last header whose suffix list
      holds the name's suffix, since the loop assigns on every match. */
  function Route(hs: seq<RenderedHeader>, name: string): (r: Option<nat>)
    ensures r.Some? ==> r.value < |hs| && Suffix(name) in Extensions(hs[r.value].family)
    ensures r.Some? ==> forall j :: r.value < j < |hs| ==> Suffix(name) !in Extensions(hs[j].family)
    ensures r.None? ==> forall j :: 0 <= j < |hs| ==> Suffix(name) !in Extensions(hs[j].family)
  {
    LastMatch(SuffixLists(hs), Suffix(name))
  }

  /** `hs` are the headers the constructor builds from `cfg`: one per family in render
      order, each with the text `RenderAll` was shown to produce. */
  predicate Rendered(hs: seq<RenderedHeader>, cfg: HeaderConfig) {
    && |hs| == |RenderOrder|
    && forall i :: 0 <= i < |hs| ==>
      && hs[i].family == RenderOrder[i]
      && hs[i].symbols == FamilySymbols(RenderOrder[i])
      && hs[i].text == Unlines(HeaderLines(cfg, FamilySymbols(RenderOrder[i]).Active()))
  }

  lemma RenderAllRendered(cfg: HeaderConfig)
    ensures Rendered(RenderAll(cfg), cfg)
  {
  }

  /** With the constructor's headers a suffix of the hash list routes to the hash header,
      one only in the star list to the star header, any other suffix nowhere. */
  lemma RouteRendered(hs: seq<RenderedHeader>, cfg: HeaderConfig, name: string)
    requires Rendered(hs, cfg)
    ensures var r := Route(hs, name);
      && (r.Some? && hs[r.value].family == Hash <==> Suffix(name) in HashExtensions)
      && (r.Some? && hs[r.value].family == Star <==>
            Suffix(name) !in HashExtensions && Suffix(name) in StarExtensions)
      && (r.None? <==> Suffix(name) !in HashExtensions && Suffix(name) !in StarExtensions)
  {
    assert SuffixLists(hs) == ListsOf(RenderOrder);
    RoutingInRenderOrder(Suffix(name));
  }

  /** A file's lines with a leading shebang line set apart (kept with its newline). */
  datatype Located = Located(shebang: string, content: seq<string>)

  function Locate(text: string): (loc: Located)
    ensures AllNoBreaks(loc.content)
    ensures loc.shebang != "" <==> |SplitLines(text)| > 0 && "#!" <= SplitLines(text)[0]
    ensures loc.shebang != "" ==> loc.shebang == SplitLines(text)[0] + "\n" && loc.content == SplitLines(text)[1..]
    ensures loc.shebang == "" ==> loc.content == SplitLines(text)
  {
    var lines := SplitLines(text);
    if |lines| > 0 && "#!" <= lines[0] then
      assert forall i :: 0 <= i < |lines| - 1 ==> lines[1..][i] == lines[i + 1];
      Located(lines[0] + "\n", lines[1..])
    else Located("", lines)
  }

  /** Number of leading lines the corrected scan takes as the existing header: none
      unless the first line starts with the opener; for `#` comments the leading run of
      lines starting with the opener; for block comments the block up to its first
      closer, or none when code or the end of the file comes first. */
  function BlockEnd(h: RenderedHeader, content: seq<string>): (e: nat)
    ensures e <= |content|
    ensures e > 0 ==> h.symbols.First() <= content[0]
    ensures h.family == Hash ==> forall i :: 0 <= i < e ==> h.symbols.First() <= content[i]
    ensures h.family == Hash && 0 < e < |content| ==> !(h.symbols.First() <= content[e])
    ensures h.family == Hash && |content| > 0 && h.symbols.First() <= content[0] ==> e > 0
    ensures h.family == Star && e > 0 ==> IsStarBlock(content, h.symbols.Active(), e)
    ensures h.family == Star && e == 0 && |content| > 0 && h.symbols.First() <= content[0] ==>
      forall k :: !IsStarBlock(content, h.symbols.Active(), k)
  {
    var t := h.symbols.Active();
    if |content| == 0 || !(t.first <= content[0]) then 0
    else
      match h.family
      case Hash => LeadingRun(content, t.first)
      case Star =>
        match StarBlockEnd(content, t)
        case Some(e) => e
        case None => 0
  }

  /** The scans as the loops are written (used only where the first line opens a comment). */
  function BlockEndAsWritten(h: RenderedHeader, content: seq<string>): (e: nat)
    ensures e <= |content|
  {
    var t := h.symbols.Active();
    match h.family
    case Hash => CountStarting(content, t.first)
    case Star => StarCountAsWritten(content, t)
  }

  /** Skip when a detected block equals the stripped header; otherwise write the shebang,
      the header and the lines after the block, left-stripped, with a final newline. */
  function Rewrite(text: string, loc: Located, header: string, detected: bool, end: nat): Run
    requires end <= |loc.content|
  {
    if detected && JoinLines(loc.content[..end]) == Strip(header) then Run(Skipped, text)
    else Run(Applied, loc.shebang + header + LStrip(JoinLines(loc.content[end..])) + "\n")
  }

  /** The body the corrected application writes after the header. */
  function Body(h: RenderedHeader, loc: Located): string {
    LStrip(JoinLines(loc.content[BlockEnd(h, loc.content)..]))
  }

  /** Corrected application: the content guard added, and both scans stop at the
      first line that does not belong to a leading comment block. */
  function Apply(hs: seq<RenderedHeader>, isFile: bool, name: string, text: string): (r: Run)
    ensures r.outcome == Unsupported <==> !isFile || Route(hs, name).None?
    ensures r.outcome != Applied ==> r.content == text
    ensures r.outcome == Applied ==>
      var h := hs[Route(hs, name).value];
      r.content == Locate(text).shebang + h.text + Body(h, Locate(text)) + "\n"
    ensures r.outcome == Skipped ==>
      var h := hs[Route(hs, name).value];
      var loc := Locate(text);
      JoinLines(loc.content[..BlockEnd(h, loc.content)]) == Strip(h.text)
    ensures isFile && Route(hs, name).Some? ==>
      var h := hs[Route(hs, name).value];
      var loc := Locate(text);
      (r.outcome == Skipped <==>
        && |loc.content| > 0 && h.symbols.First() <= loc.content[0]
        && JoinLines(loc.content[..BlockEnd(h, loc.content)]) == Strip(h.text))
  {
    if !isFile then Run(Unsupported, text)
    else
      match Route(hs, name)
      case None => Run(Unsupported, text)
      case Some(k) =>
        var h := hs[k];
        var loc := Locate(text);
        var detected := |loc.content| > 0 && h.symbols.First() <= loc.content[0];
        Rewrite(text, loc, h.text, detected, BlockEnd(h, loc.content))
  }

  /** The application as written: `content[0]` is read without a guard, and the scans
      of the two families are the loops as they stand. */
  function ApplyAsWritten(hs: seq<RenderedHeader>, isFile: bool, name: string, text: string): (r: Result<Run, PyError>)
    ensures r.Err? <==> isFile && Route(hs, name).Some? && |Locate(text).content| == 0
    ensures r.Ok? ==> (r.value.outcome == Unsupported <==> !isFile || Route(hs, name).None?)
    ensures r.Ok? && r.value.outcome != Applied ==> r.value.content == text
  {
    if !isFile then Ok(Run(Unsupported, text))
    else
      match Route(hs, name)
      case None => Ok(Run(Unsupported, text))
      case Some(k) =>
        var h := hs[k];
        var loc := Locate(text);
        if |loc.content| == 0 then Err(IndexError)
        else
          var detected := h.symbols.First() <= loc.content[0];
          var end := if detected then BlockEndAsWritten(h, loc.content) else 0;
          Ok(Rewrite(text, loc, h.text, detected, end))
  }

  /** The headers' stripped text is their lines joined. */
  lemma RenderedStripped(hs: seq<RenderedHeader>, cfg: HeaderConfig, k: nat)
    requires Rendered(hs, cfg) && k < |hs|
    ensures Strip(hs[k].text) == JoinLines(HeaderLines(cfg, hs[k].symbols.Active()))
  {
    var t := hs[k].symbols.Active();
    assert t == Triple("/*", " *", " */") || t == Triple("#", "#", "#");
    StrippedHeader(cfg, t);
  }

  /** A regular file with a route goes through the rewrite with the corrected scan. */
  lemma ApplyRouted(hs: seq<RenderedHeader>, name: string, text: string)
    requires Route(hs, name).Some?
    ensures var h := hs[Route(hs, name).value];
      var loc := Locate(text);
      var detected := |loc.content| > 0 && h.symbols.First() <= loc.content[0];
      Apply(hs, true, name, text) == Rewrite(text, loc, h.text, detected, BlockEnd(h, loc.content))
  {
  }

  /** A routed file whose detected block is the stripped header is left as it is. */
  lemma ApplySkipsMatchingBlock(hs: seq<RenderedHeader>, name: string, text: string)
    requires Route(hs, name).Some?
    requires var h := hs[Route(hs, name).value];
      var loc := Locate(text);
      && |loc.content| > 0 && h.symbols.First() <= loc.content[0]
      && JoinLines(loc.content[..BlockEnd(h, loc.content)]) == Strip(h.text)
    ensures Apply(hs, true, name, text) == Run(Skipped, text)
  {
  }

  /** The same for the code as written, once the file has a line after the shebang. */
  lemma ApplyAsWrittenRouted(hs: seq<RenderedHeader>, name: string, text: string)
    requires Route(hs, name).Some? && |Locate(text).content| > 0
    ensures var h := hs[Route(hs, name).value];
      var loc := Locate(text);
      var detected := h.symbols.First() <= loc.content[0];
      ApplyAsWritten(hs, true, name, text) ==
        Ok(Rewrite(text, loc, h.text, detected, if detected then BlockEndAsWritten(h, loc.content) else 0))
  {
  }
}
