/**
 * Laws of the corrected application: the shebang line survives, an empty file
 * gets the header, and applying twice changes nothing the second time.
 */
module ApplyLaws {
  import opened Wrappers
  import opened PyStr
  import opened Symbols
  import opened Registry
  import opened Template
  import opened Render
  import opened Detect
  import opened Application

  /** The file name routes to a header of family `f`. */
  predicate RoutesTo(hs: seq<RenderedHeader>, name: string, f: Family) {
    Route(hs, name).Some? && hs[Route(hs, name).value].family == f
  }

  /** A first line starting with `#!` comes back unchanged as the first line of the
      written file. */
  lemma ShebangPreserved(hs: seq<RenderedHeader>, isFile: bool, name: string, text: string)
    requires |SplitLines(text)| > 0 && "#!" <= SplitLines(text)[0]
    ensures var r := Apply(hs, isFile, name, text);
      |SplitLines(r.content)| > 0 && SplitLines(r.content)[0] == SplitLines(text)[0]
  {
    var r := Apply(hs, isFile, name, text);
    var l0 := SplitLines(text)[0];
    var loc := Locate(text);
    assert loc.shebang == l0 + "\n";
    if r.outcome == Applied {
      var h := hs[Route(hs, name).value];
      var b := Body(h, loc);
      var rest := h.text + (b + "\n");
      assert r.content == loc.shebang + h.text + b + "\n";
      Regroup(loc.shebang, h.text, b);
      SplitFirstLine(l0, rest);
    }
  }

  lemma Regroup(a: string, b: string, c: string)
    ensures a + b + c + "\n" == a + (b + (c + "\n"))
  {
  }

  /** An empty file has no shebang and no lines. */
  lemma LocateEmpty()
    ensures Locate("") == Located("", [])
  {
    assert SplitLines("") == [];
  }

  /** With no lines and nothing detected, the rewrite writes the header and a newline. */
  lemma RewriteNothing(x: string)
    ensures Rewrite("", Located("", []), x, false, 0) == Run(Applied, x + "\n")
  {
    var c: seq<string> := [];
    assert c[0..] == [];
    assert JoinLines([]) == "";
    assert LStrip("") == "";
    assert "" + x + "" == x;
  }

  /** An empty file receives the header followed by an empty line. */
  lemma EmptyFileGetsHeader(hs: seq<RenderedHeader>, name: string)
    requires Route(hs, name).Some?
    ensures Apply(hs, true, name, "") == Run(Applied, hs[Route(hs, name).value].text + "\n")
  {
    var h := hs[Route(hs, name).value];
    LocateEmpty();
    assert BlockEnd(h, []) == 0;
    ApplyRouted(hs, name, "");
    RewriteNothing(h.text);
  }

  /** Every line of the hash header starts with `#`. */
  lemma HashHeaderLinesStart(cfg: HeaderConfig)
    ensures var hl := HeaderLines(cfg, HashSymbols.Active());
      forall i :: 0 <= i < |hl| ==> "#" <= hl[i]
  {
    HeaderLinesStartWith(cfg, HashSymbols.Active(), "#");
  }

  /** Above a line that does not start with `#`, the corrected hash scan finds exactly
      the header. */
  lemma HashBlockOnHeader(h: RenderedHeader, cfg: HeaderConfig, s: seq<string>)
    requires h.family == Hash && h.symbols == HashSymbols
    requires |s| > 0 && !("#" <= s[0])
    ensures BlockEnd(h, HeaderLines(cfg, HashSymbols.Active()) + s) == |HeaderLines(cfg, HashSymbols.Active())|
  {
    var hl := HeaderLines(cfg, HashSymbols.Active());
    var c := hl + s;
    HashHeaderLinesStart(cfg);
    assert c[0] == "#";
    assert c[|hl|] == s[0];
    LeadingRunExact(c, "#", |hl|);
  }

  /** No template line other than the title's begins with `/` once substituted. */
  lemma SubstitutedNoSlash(cfg: HeaderConfig, i: nat)
    requires 0 < i < |Substituted(cfg)| && |Substituted(cfg)[i]| > 0
    ensures Substituted(cfg)[i][0] != '/'
  {
    var x := Substituted(cfg)[i];
    if i == 2 {
      assert x == "Copyright (c) " + (cfg.year + ", " + cfg.holder);
    } else if i == 4 {
      assert x == ContentsLine;
    } else if i == 5 {
      assert x == ComplianceLine;
    } else if i == 7 {
      assert x == "SPDX-License-Identifier: " + cfg.spdxId;
    }
  }

  /** A line made of the middle marker and text not starting with `/` is inside a block. */
  lemma StarLineInside(x: string)
    requires |x| == 0 || x[0] != '/'
    ensures Classify(" *" + x, StarSymbols.Active()) == Inside
  {
    var line := " *" + x;
    if |x| > 0 {
      assert line[2] == x[0];
      NotPrefixAt(" */", line, 2);
    } else {
      assert line == " *";
    }
    assert " *" <= line;
  }

  /** An indent of spaces, or no indent before text not starting with `/`, does not
      start with `/`. */
  lemma LeadNotSlash(ind: string, y: string)
    requires (|ind| > 0 && ind[0] == ' ') || (ind == "" && (|y| == 0 || y[0] != '/'))
    ensures |ind + y| == 0 || (ind + y)[0] != '/'
  {
    if |ind| > 0 {
      assert (ind + y)[0] == ind[0];
    } else {
      assert ind + y == y;
    }
  }

  /** A block-comment middle line is inside the block unless the indent is empty and its
      text starts with `/`, which would make it a closer. */
  lemma StarMiddleLineInside(cfg: HeaderConfig, i: nat)
    requires i < |Substituted(cfg)|
    requires cfg.spaces > 0 || !("/" <= cfg.title)
    ensures Classify(" *" + Indent(cfg.spaces) + Substituted(cfg)[i], StarSymbols.Active()) == Inside
  {
    var ind := Indent(cfg.spaces);
    var y := Substituted(cfg)[i];
    if cfg.spaces <= 0 && |y| > 0 {
      if i == 0 {
        assert y == cfg.title;
        assert !("/" <= y) && y[..1] == [y[0]];
      } else {
        SubstitutedNoSlash(cfg, i);
      }
    }
    LeadNotSlash(ind, y);
    StarLineInside(ind + y);
    assert " *" + ind + y == " *" + (ind + y);
  }

  /** With a non-empty indent, or a title that does not start with `/`, the star header
      is a block comment ending at its closer, whatever follows it. */
  lemma StarBlockOnHeader(h: RenderedHeader, cfg: HeaderConfig, s: seq<string>)
    requires h.family == Star && h.symbols == StarSymbols
    requires cfg.spaces > 0 || !("/" <= cfg.title)
    ensures BlockEnd(h, HeaderLines(cfg, StarSymbols.Active()) + s) == |HeaderLines(cfg, StarSymbols.Active())|
  {
    var t := StarSymbols.Active();
    var hl := HeaderLines(cfg, t);
    var c := hl + s;
    assert IsStarBlock(c, t, |hl|) by {
      assert c[|hl| - 1] == " */";
      forall i | 0 <= i < |hl| - 1 ensures Classify(c[i], t) == Inside {
        if i == 0 {
          assert c[0] == "/*";
          NotPrefixAt(" */", "/*", 0);
        } else {
          assert c[i] == " *" + Indent(cfg.spaces) + Substituted(cfg)[i - 1];
          StarMiddleLineInside(cfg, i - 1);
        }
      }
    }
    assert c[0] == "/*";
    match StarBlockEnd(c, t)
    case Some(e) =>
      StarBlockUnique(c, t, e, |hl|);
    case None =>
  }

  /** A shebang line followed by the header and a tail splits into the shebang line,
      the header's lines and the tail's lines. */
  lemma SplitBelowShebang(l0: string, hl: seq<string>, tail: string)
    requires NoBreaks(l0) && AllNoBreaks(hl)
    ensures SplitLines(l0 + "\n" + (Unlines(hl) + tail)) == [l0] + (hl + SplitLines(tail))
  {
    SplitFirstLine(l0, Unlines(hl) + tail);
    SplitAfterUnlines(hl, tail);
  }

  /** Lines that do not begin with a shebang, written below a file's shebang, are
      found again below it, followed by the tail's lines. */
  lemma LocateAbove(text: string, hl: seq<string>, tail: string)
    requires AllNoBreaks(hl) && |hl| > 0 && !("#!" <= hl[0])
    ensures var loc := Locate(text);
      Locate(loc.shebang + (Unlines(hl) + tail)) == Located(loc.shebang, hl + SplitLines(tail))
  {
    var loc := Locate(text);
    var out := loc.shebang + (Unlines(hl) + tail);
    var lines := SplitLines(text);
    SplitAfterUnlines(hl, tail);
    if |lines| > 0 && "#!" <= lines[0] {
      assert NoBreaks(lines[0]);
      SplitBelowShebang(lines[0], hl, tail);
      assert ([lines[0]] + (hl + SplitLines(tail)))[1..] == hl + SplitLines(tail);
    } else {
      assert out == Unlines(hl) + tail;
      assert (hl + SplitLines(tail))[0] == hl[0];
    }
  }

  /** A file that begins with lines other than a shebang has no shebang set apart. */
  lemma LocateHeaderFirst(hl: seq<string>, tail: string)
    requires AllNoBreaks(hl) && |hl| > 0 && !("#!" <= hl[0])
    ensures Locate(Unlines(hl) + tail) == Located("", hl + SplitLines(tail))
  {
    LocateAbove("", hl, tail);
    assert Locate("").shebang == "";
    assert "" + (Unlines(hl) + tail) == Unlines(hl) + tail;
  }

  /** A file whose first line is no shebang is located as its lines. */
  lemma LocatePlain(ls: seq<string>)
    requires AllNoBreaks(ls) && (|ls| == 0 || !("#!" <= ls[0]))
    ensures Locate(Unlines(ls)) == Located("", ls)
  {
    SplitUnlines(ls);
  }

  /** Two line lists without breaks joined make one without breaks. */
  lemma AllNoBreaksJoin(a: seq<string>, b: seq<string>)
    requires AllNoBreaks(a) && AllNoBreaks(b)
    ensures AllNoBreaks(a + b)
  {
    forall i | 0 <= i < |a + b| ensures NoBreaks((a + b)[i]) {
      if i >= |a| {
        assert (a + b)[i] == b[i - |a|];
      }
    }
  }

  /** Writing the header above a body and locating the lines again gives the same
      shebang, then the header's lines, then the body's lines. */
  lemma LocateWritten(cfg: HeaderConfig, f: Family, text: string, body: string)
    requires SingleLineValues(cfg)
    ensures var hl := HeaderLines(cfg, FamilySymbols(f).Active());
      var loc := Locate(text);
      Locate(loc.shebang + Unlines(hl) + body + "\n") == Located(loc.shebang, hl + SplitLines(body + "\n"))
  {
    var t := FamilySymbols(f).Active();
    assert t == Triple("/*", " *", " */") || t == Triple("#", "#", "#");
    var hl := HeaderLines(cfg, t);
    HeaderLinesSplit(cfg, t, "");
    assert hl[0] == t.first;
    assert !("#!" <= t.first) by {
      if t.first == "/*" {
        NotPrefixAt("#!", t.first, 0);
      }
    }
    Regroup(Locate(text).shebang, Unlines(hl), body);
    LocateAbove(text, hl, body + "\n");
  }

  /** The first line of the written body starts with `#` only when the body does. */
  lemma BodyFirstLine(body: string)
    ensures |SplitLines(body + "\n")| > 0
    ensures "#" <= SplitLines(body + "\n")[0] ==> "#" <= body
  {
    FirstLineIsPrefix(body + "\n");
    var l := SplitLines(body + "\n")[0];
    if "#" <= l {
      assert (body + "\n")[0] == '#';
    }
  }

  /** Applying twice: the second application skips and leaves the file as the first
      left it. Values must be single lines; a block-comment header needs an indent or a
      title not starting with `/`; a `#` header needs a body that does not start with
      `#`, since the scan cannot tell a comment right below the header from the header. */
  lemma ApplyIdempotent(hs: seq<RenderedHeader>, cfg: HeaderConfig, name: string, text: string)
    requires Rendered(hs, cfg) && SingleLineValues(cfg)
    requires RoutesTo(hs, name, Star) ==> cfg.spaces > 0 || !("/" <= cfg.title)
    requires RoutesTo(hs, name, Hash) ==> !("#" <= Body(hs[Route(hs, name).value], Locate(text)))
    ensures var r := Apply(hs, true, name, text);
      r.outcome != Unsupported ==> Apply(hs, true, name, r.content) == Run(Skipped, r.content)
  {
    var r := Apply(hs, true, name, text);
    if r.outcome == Applied {
      var h := hs[Route(hs, name).value];
      WrittenHeaderSkipped(hs, cfg, name, text, Body(h, Locate(text)));
    }
  }

  /** A file holding the shebang, the written header and then a body is skipped. */
  lemma WrittenHeaderSkipped(hs: seq<RenderedHeader>, cfg: HeaderConfig, name: string, text: string, body: string)
    requires Rendered(hs, cfg) && SingleLineValues(cfg) && Route(hs, name).Some?
    requires RoutesTo(hs, name, Star) ==> cfg.spaces > 0 || !("/" <= cfg.title)
    requires RoutesTo(hs, name, Hash) ==> !("#" <= body)
    ensures var c := Locate(text).shebang + hs[Route(hs, name).value].text + body + "\n";
      Apply(hs, true, name, c) == Run(Skipped, c)
  {
    var k := Route(hs, name).value;
    var h := hs[k];
    var t := h.symbols.Active();
    var hl := HeaderLines(cfg, t);
    var loc := Locate(text);
    var c := loc.shebang + h.text + body + "\n";
    LocateWritten(cfg, h.family, text, body);
    var s := SplitLines(body + "\n");
    var loc2 := Locate(c);
    assert loc2 == Located(loc.shebang, hl + s);
    BodyFirstLine(body);
    if h.family == Hash {
      HashBlockOnHeader(h, cfg, s);
    } else {
      StarBlockOnHeader(h, cfg, s);
    }
    assert (hl + s)[..|hl|] == hl;
    RenderedStripped(hs, cfg, k);
    ApplySkipsMatchingBlock(hs, name, c);
  }
}
