/**
 * Where the application as written departs from what it is evidently meant to
 * do, each shown on a concrete file next to the corrected application.
 */
module Findings {
  import opened Wrappers
  import opened PyStr
  import opened Symbols
  import opened Registry
  import opened Template
  import opened Render
  import opened Detect
  import opened Application
  import opened ApplyLaws

  /** The lines' `#` lines all lie in the leading run, or, when the lines begin with
      an opener, they begin with a block comment. */
  predicate ScansMatch(h: RenderedHeader, c: seq<string>) {
    && (h.family == Hash ==>
          forall i :: LeadingRun(c, h.symbols.First()) <= i < |c| ==> !(h.symbols.First() <= c[i]))
    && (h.family == Star && |c| > 0 && h.symbols.First() <= c[0] ==>
          exists e :: 0 < e <= |c| && IsStarBlock(c, h.symbols.Active(), e))
  }

  /** Where the lines match, the scans as written end where the corrected ones do. */
  lemma ScansAgree(h: RenderedHeader, c: seq<string>)
    requires |c| > 0 && ScansMatch(h, c)
    ensures (if h.symbols.First() <= c[0] then BlockEndAsWritten(h, c) else 0) == BlockEnd(h, c)
  {
    var t := h.symbols.Active();
    if t.first <= c[0] {
      match h.family
      case Hash =>
        CountVersusRun(c, t.first);
      case Star =>
        var e :| 0 < e <= |c| && IsStarBlock(c, t, e);
        var r := StarBlockEnd(c, t);
        StarBlockUnique(c, t, r.value, e);
        StarCountAgrees(c, t, e);
    }
  }

  /** Wherever the scans as written find the same block as the corrected ones, and the
      file has a line after any shebang, both applications agree. */
  lemma AsWrittenAgrees(hs: seq<RenderedHeader>, isFile: bool, name: string, text: string)
    requires isFile && Route(hs, name).Some? ==>
      |Locate(text).content| > 0 && ScansMatch(hs[Route(hs, name).value], Locate(text).content)
    ensures ApplyAsWritten(hs, isFile, name, text) == Ok(Apply(hs, isFile, name, text))
  {
    if isFile && Route(hs, name).Some? {
      ApplyRouted(hs, name, text);
      ApplyAsWrittenRouted(hs, name, text);
      ScansAgree(hs[Route(hs, name).value], Locate(text).content);
    }
  }

  /** The name routes to the header of family `f`, whose text is its header lines. */
  lemma RoutedRendered(hs: seq<RenderedHeader>, cfg: HeaderConfig, name: string, f: Family)
    requires Rendered(hs, cfg)
    requires f == Hash ==> Suffix(name) in HashExtensions
    requires f == Star ==> Suffix(name) !in HashExtensions && Suffix(name) in StarExtensions
    ensures Route(hs, name).Some?
    ensures var h := hs[Route(hs, name).value];
      && h.family == f && h.symbols == FamilySymbols(f)
      && h.text == Unlines(HeaderLines(cfg, FamilySymbols(f).Active()))
  {
    RouteRendered(hs, cfg, name);
  }

  lemma PySuffix()
    ensures Suffix("main.py") == ".py"
  {
    assert LastDot("main.py") == 4 by {
      assert LastDot("main.p") == 4 by {
        assert LastDot("main.") == 4;
      }
    }
  }

  /** `.js` is a star suffix and not a hash suffix. */
  lemma JsStarOnly()
    ensures ".js" !in HashExtensions && ".js" in StarExtensions
  {
    JsNotHash();
    assert StarExtensions[9] == ".js";
  }

  lemma JsNotHash()
    ensures ".js" !in HashExtensions
  {
    JsNotHashBetween(0, 8);
    JsNotHashBetween(8, 16);
    JsNotHashBetween(16, 24);
    JsNotHashBetween(24, |HashExtensions|);
  }

  lemma JsNotHashBetween(lo: nat, hi: nat)
    requires lo <= hi <= |HashExtensions| && hi - lo <= 8
    ensures forall i :: lo <= i < hi ==> HashExtensions[i] != ".js"
  {
    forall i | lo <= i < hi ensures HashExtensions[i] != ".js" {
      assert |HashExtensions[i]| != 3 || HashExtensions[i][1] != 'j';
    }
  }

  lemma JsSuffix()
    ensures Suffix("app.js") == ".js"
  {
    assert LastDot("app.js") == 3 by {
      assert LastDot("app.j") == 3 by {
        assert LastDot("app.") == 3;
      }
    }
  }

  /** The hash header's lines hold no break and do not begin with a shebang. */
  lemma HashHeaderLines(cfg: HeaderConfig)
    requires SingleLineValues(cfg)
    ensures var hl := HeaderLines(cfg, HashSymbols.Active());
      AllNoBreaks(hl) && |hl| > 0 && hl[0] == "#" && !("#!" <= hl[0])
  {
    HeaderLinesSplit(cfg, HashSymbols.Active(), "");
  }

  /** The scan as written counts the header and the later comment. */
  lemma HashCountBelowHeader(cfg: HeaderConfig, s: seq<string>)
    requires s == ["import os", "# note"]
    ensures var hl := HeaderLines(cfg, HashSymbols.Active());
      CountStarting(hl + s, "#") == |hl| + 1
  {
    var hl := HeaderLines(cfg, HashSymbols.Active());
    HashHeaderLinesStart(cfg);
    CountStartingAppend(hl, s, "#");
    assert CountStarting(s, "#") == 1 by {
      NotPrefixAt("#", "import os", 0);
      assert "#" <= "# note";
      assert s[1..] == ["# note"];
      assert s[1..][1..] == [];
    }
  }

  /** Below the header of the hash example: a line of code, then a comment. */
  const NoteScript: seq<string> := ["import os", "# note"]

  lemma NoteScriptNoBreaks()
    ensures AllNoBreaks(NoteScript)
  {
    assert NoBreaks("import os");
    assert NoBreaks("# note");
  }

  /** The file of the hash example, located: no shebang, the header's lines, then
      the code line and the comment; it routes to the hash header. */
  lemma HashExampleLocated(hs: seq<RenderedHeader>, cfg: HeaderConfig)
    requires Rendered(hs, cfg) && SingleLineValues(cfg)
    ensures var hl := HeaderLines(cfg, HashSymbols.Active());
      && Locate(Unlines(hl + NoteScript)) == Located("", hl + NoteScript)
      && Route(hs, "main.py").Some?
      && var h := hs[Route(hs, "main.py").value];
      && h.family == Hash && h.symbols == HashSymbols
      && h.text == Unlines(hl) && Strip(h.text) == JoinLines(hl)
  {
    PySuffix();
    RoutedRendered(hs, cfg, "main.py", Hash);
    RenderedStripped(hs, cfg, Route(hs, "main.py").value);
    HashExampleText(cfg);
  }

  /** The hash example's text is located as the header's lines and the script's. */
  lemma HashExampleText(cfg: HeaderConfig)
    requires SingleLineValues(cfg)
    ensures var hl := HeaderLines(cfg, HashSymbols.Active());
      Locate(Unlines(hl + NoteScript)) == Located("", hl + NoteScript)
  {
    var hl := HeaderLines(cfg, HashSymbols.Active());
    NoteScriptNoBreaks();
    HashHeaderLines(cfg);
    AllNoBreaksJoin(hl, NoteScript);
    var c := hl + NoteScript;
    assert c[0] == hl[0];
    LocatePlain(c);
  }

  lemma HashCorrectedSkips(hs: seq<RenderedHeader>, cfg: HeaderConfig)
    requires Rendered(hs, cfg) && SingleLineValues(cfg)
    ensures var text := Unlines(HeaderLines(cfg, HashSymbols.Active()) + NoteScript);
      Apply(hs, true, "main.py", text) == Run(Skipped, text)
  {
    var hl := HeaderLines(cfg, HashSymbols.Active());
    var text := Unlines(hl + NoteScript);
    var c := hl + NoteScript;
    HashExampleLocated(hs, cfg);
    var h := hs[Route(hs, "main.py").value];
    assert c[0] == "#";
    NotPrefixAt("#", "import os", 0);
    HashBlockOnHeader(h, cfg, NoteScript);
    assert c[..|hl|] == hl;
    ApplyRouted(hs, "main.py", text);
  }

  /** A block one line longer than the header is not the header. */
  lemma {:induction false} SnocNotJoin(hl: seq<string>, x: string)
    requires |hl| > 0
    ensures JoinLines(hl + [x]) != JoinLines(hl)
  {
    JoinSnoc(hl, x);
    assert |JoinLines(hl + [x])| > |JoinLines(hl)|;
  }

  /** Below any header, the block that takes in the code line is not the header. */
  lemma {:induction false} NoteBlockNotHeader(hl: seq<string>)
    requires |hl| > 0
    ensures JoinLines((hl + NoteScript)[..|hl| + 1]) != JoinLines(hl)
  {
    assert (hl + NoteScript)[..|hl| + 1] == hl + ["import os"];
    SnocNotJoin(hl, "import os");
  }

  /** What follows that block is the comment alone. */
  lemma {:induction false} NoteBodyAfter(hl: seq<string>)
    ensures "" + Unlines(hl) + LStrip(JoinLines((hl + NoteScript)[|hl| + 1..])) + "\n" == Unlines(hl) + "# note\n"
  {
    assert (hl + NoteScript)[|hl| + 1..] == ["# note"];
    assert JoinLines(["# note"]) == "# note";
    LStripVisible("# note");
    assert "" + Unlines(hl) == Unlines(hl);
  }

  /** The as-written block of the hash example is not the header, and what follows
      it is the comment alone. */
  lemma HashExampleBlock(cfg: HeaderConfig)
    ensures var hl := HeaderLines(cfg, HashSymbols.Active());
      var c := hl + NoteScript;
      && JoinLines(c[..|hl| + 1]) != JoinLines(hl)
      && "" + Unlines(hl) + LStrip(JoinLines(c[|hl| + 1..])) + "\n" == Unlines(hl) + "# note\n"
  {
    var hl := HeaderLines(cfg, HashSymbols.Active());
    assert |hl| > 0;
    NoteBlockNotHeader(hl);
    NoteBodyAfter(hl);
  }

  lemma HashAsWrittenDeletes(hs: seq<RenderedHeader>, cfg: HeaderConfig)
    requires Rendered(hs, cfg) && SingleLineValues(cfg)
    ensures var hl := HeaderLines(cfg, HashSymbols.Active());
      var text := Unlines(hl + NoteScript);
      ApplyAsWritten(hs, true, "main.py", text) == Ok(Run(Applied, Unlines(hl) + "# note\n"))
  {
    var hl := HeaderLines(cfg, HashSymbols.Active());
    var text := Unlines(hl + NoteScript);
    var c := hl + NoteScript;
    HashExampleLocated(hs, cfg);
    var h := hs[Route(hs, "main.py").value];
    assert c[0] == "#";
    HashCountBelowHeader(cfg, NoteScript);
    assert BlockEndAsWritten(h, c) == |hl| + 1;
    HashExampleBlock(cfg);
    assert Rewrite(text, Located("", c), h.text, true, |hl| + 1) == Run(Applied, Unlines(hl) + "# note\n");
    ApplyAsWrittenRouted(hs, "main.py", text);
  }

  /** A `#` file holding the current header, a line of code and a later comment. The
      corrected application skips it. The hash scan as written counts the later
      comment into the header, so the header no longer matches and the rewrite
      deletes the code line between them. */
  lemma HashRewriteDeletesCode(hs: seq<RenderedHeader>, cfg: HeaderConfig)
    requires Rendered(hs, cfg) && SingleLineValues(cfg)
    ensures var hl := HeaderLines(cfg, HashSymbols.Active());
      var text := Unlines(hl + NoteScript);
      && Apply(hs, true, "main.py", text) == Run(Skipped, text)
      && ApplyAsWritten(hs, true, "main.py", text) == Ok(Run(Applied, Unlines(hl) + "# note\n"))
  {
    HashCorrectedSkips(hs, cfg);
    HashAsWrittenDeletes(hs, cfg);
  }

  /** The lines of a script whose first comment is a one-line directive, followed by
      code and then a documentation comment. */
  const DirectiveScript: seq<string> :=
    ["/* eslint-disable */", "import x;", "/**", " * doc", " */", "f();"]

  lemma DirectiveNoBreaks()
    ensures NoBreaks("/* eslint-disable */")
  {
  }

  lemma DirectiveScriptLines()
    ensures AllNoBreaks(DirectiveScript)
  {
    DirectiveNoBreaks();
    assert NoBreaks("import x;");
    assert NoBreaks(" * doc");
  }

  /** The file of the star example, located: no shebang, the script's lines; it routes
      to the star header. */
  lemma StarExampleLocated(hs: seq<RenderedHeader>, cfg: HeaderConfig)
    requires Rendered(hs, cfg)
    ensures var hl := HeaderLines(cfg, StarSymbols.Active());
      && Locate(Unlines(DirectiveScript)) == Located("", DirectiveScript)
      && Route(hs, "app.js").Some?
      && var h := hs[Route(hs, "app.js").value];
      && h.family == Star && h.symbols == StarSymbols
      && h.text == Unlines(hl) && Strip(h.text) == JoinLines(hl)
  {
    JsRoutesToStar(hs, cfg);
    DirectiveLocated();
  }

  /** A `.js` file routes to the star header. */
  lemma JsRoutesToStar(hs: seq<RenderedHeader>, cfg: HeaderConfig)
    requires Rendered(hs, cfg)
    ensures var hl := HeaderLines(cfg, StarSymbols.Active());
      && Route(hs, "app.js").Some?
      && var h := hs[Route(hs, "app.js").value];
      && h.family == Star && h.symbols == StarSymbols
      && h.text == Unlines(hl) && Strip(h.text) == JoinLines(hl)
  {
    JsSuffix();
    JsStarOnly();
    RoutedRendered(hs, cfg, "app.js", Star);
    RenderedStripped(hs, cfg, Route(hs, "app.js").value);
  }

  lemma DirectiveLocated()
    ensures Locate(Unlines(DirectiveScript)) == Located("", DirectiveScript)
  {
    DirectiveScriptLines();
    NotPrefixAt("#!", DirectiveScript[0], 0);
    LocatePlain(DirectiveScript);
  }

  /** The corrected scan meets the code line before any closer; the scan as written
      passes over it and ends at the documentation comment's closer. */
  lemma StarExampleScans()
    ensures StarBlockEnd(DirectiveScript, StarSymbols.Active()).None?
    ensures StarCountAsWritten(DirectiveScript, StarSymbols.Active()) == 4
  {
    var t := StarSymbols.Active();
    var lines := DirectiveScript;
    NotPrefixAt(" */", lines[0], 0);
    assert Classify(lines[0], t) == Inside;
    NotPrefixAt(" */", lines[1], 0);
    NotPrefixAt(" *", lines[1], 0);
    NotPrefixAt("/*", lines[1], 0);
    assert !IsSpace(lines[1][0]);
    assert Classify(lines[1], t) == Outside;
    assert lines[1..][0] == lines[1];
    NotPrefixAt(" */", lines[2], 0);
    assert Classify(lines[2], t) == Inside;
    NotPrefixAt(" */", lines[3], 2);
    assert Classify(lines[3], t) == Inside;
    assert Classify(lines[4], t) == Closer;
    assert lines[1..][1..] == lines[2..];
    assert lines[2..][1..] == lines[3..];
    assert lines[3..][1..] == lines[4..];
  }

  /** Lines whose first character is not white space are written back whole. */
  lemma VisibleBodyKept(u: string, lines: seq<string>)
    requires |lines| > 0 && |lines[0]| > 0 && !IsSpace(lines[0][0])
    ensures "" + u + LStrip(JoinLines(lines[0..])) + "\n" == u + Unlines(lines)
  {
    assert lines[0..] == lines;
    var j := JoinLines(lines);
    JoinStartsWithFirst(lines);
    assert j[0] == lines[0][0];
    LStripVisible(j);
    UnlinesIsJoinPlusNewline(lines);
    assert "" + u + j + "\n" == u + (j + "\n");
  }

  /** The corrected rewrite writes the whole script after the header. */
  lemma StarKeptBody(u: string)
    ensures "" + u + LStrip(JoinLines(DirectiveScript[0..])) + "\n" == u + Unlines(DirectiveScript)
  {
    var first := DirectiveScript[0];
    assert |first| > 0 && first[0] == '/';
    VisibleBodyKept(u, DirectiveScript);
  }

  lemma SwallowedTail()
    ensures JoinLines(DirectiveScript[4..]) == " */\nf();"
  {
    var tail := DirectiveScript[4..];
    assert tail == [" */", "f();"];
    assert tail[1..] == ["f();"];
  }

  lemma CloserStripped()
    ensures LStrip(" */\nf();") == "*/\nf();"
  {
    var j := " */\nf();";
    assert IsSpace(j[0]);
    assert j[1..] == "*/\nf();";
    assert !IsSpace(j[1..][0]);
  }

  /** The rewrite as written keeps only the closer, left-stripped, and the last line. */
  lemma StarSwallowedBody(u: string)
    ensures "" + u + LStrip(JoinLines(DirectiveScript[4..])) + "\n" == u + "*/\nf();\n"
  {
    SwallowedTail();
    CloserStripped();
  }

  /** Neither block the scans find is the header, which begins with a line of its own. */
  lemma StarBlocksDiffer(cfg: HeaderConfig)
    ensures JoinLines(DirectiveScript[..4]) != JoinLines(HeaderLines(cfg, StarSymbols.Active()))
    ensures JoinLines(DirectiveScript[..0]) != JoinLines(HeaderLines(cfg, StarSymbols.Active()))
  {
    var lines := DirectiveScript;
    var hl := HeaderLines(cfg, StarSymbols.Active());
    var j := JoinLines(hl);
    assert j == "/*" + "\n" + JoinLines(hl[1..]);
    assert j[2] == '\n';
    var b := JoinLines(lines[..4]);
    assert b == lines[0] + "\n" + JoinLines(lines[1..4]);
    assert b[2] == ' ';
  }

  lemma StarCorrectedKeeps(hs: seq<RenderedHeader>, cfg: HeaderConfig)
    requires Rendered(hs, cfg)
    ensures var text := Unlines(DirectiveScript);
      Apply(hs, true, "app.js", text) == Run(Applied, Unlines(HeaderLines(cfg, StarSymbols.Active())) + text)
  {
    var text := Unlines(DirectiveScript);
    StarExampleLocated(hs, cfg);
    var h := hs[Route(hs, "app.js").value];
    StarExampleScans();
    assert BlockEnd(h, DirectiveScript) == 0;
    StarBlocksDiffer(cfg);
    StarKeptBody(Unlines(HeaderLines(cfg, StarSymbols.Active())));
    ApplyRouted(hs, "app.js", text);
  }

  lemma StarAsWrittenSwallows(hs: seq<RenderedHeader>, cfg: HeaderConfig)
    requires Rendered(hs, cfg)
    ensures var text := Unlines(DirectiveScript);
      ApplyAsWritten(hs, true, "app.js", text) ==
        Ok(Run(Applied, Unlines(HeaderLines(cfg, StarSymbols.Active())) + "*/\nf();\n"))
  {
    var text := Unlines(DirectiveScript);
    StarExampleLocated(hs, cfg);
    var h := hs[Route(hs, "app.js").value];
    StarExampleScans();
    assert BlockEndAsWritten(h, DirectiveScript) == 4;
    StarBlocksDiffer(cfg);
    StarSwallowedBody(Unlines(HeaderLines(cfg, StarSymbols.Active())));
    ApplyAsWrittenRouted(hs, "app.js", text);
  }

  /** The star scan as written passes over the code line and stops only at the
      documentation comment's closer, so the rewrite deletes the directive, the code and
      half of that comment. The corrected scan stops at the code line, finds no header,
      and the file keeps every line below the new header. */
  lemma StarScanSwallowsCode(hs: seq<RenderedHeader>, cfg: HeaderConfig)
    requires Rendered(hs, cfg)
    ensures var hl := HeaderLines(cfg, StarSymbols.Active());
      var text := Unlines(DirectiveScript);
      && Apply(hs, true, "app.js", text) == Run(Applied, Unlines(hl) + text)
      && ApplyAsWritten(hs, true, "app.js", text) == Ok(Run(Applied, Unlines(hl) + "*/\nf();\n"))
  {
    StarCorrectedKeeps(hs, cfg);
    StarAsWrittenSwallows(hs, cfg);
  }

  lemma ShebangOnlyLocate()
    ensures Locate("#!/bin/sh\n") == Located("#!/bin/sh\n", [])
  {
    var l := "#!/bin/sh";
    assert NoBreaks(l);
    SplitUnlines([l]);
    assert Unlines([l]) == l + "\n" + Unlines([]);
    assert "#!/bin/sh\n" == Unlines([l]);
    assert "#!" <= l;
    assert [l][1..] == [];
  }

  /** With only a shebang and nothing detected, the rewrite writes the shebang, the
      header and a newline. */
  lemma RewriteShebangOnly(text: string, sb: string, x: string)
    ensures Rewrite(text, Located(sb, []), x, false, 0) == Run(Applied, sb + x + "\n")
  {
    var c: seq<string> := [];
    assert c[0..] == [];
    assert JoinLines([]) == "";
    assert LStrip("") == "";
    assert sb + x + "" == sb + x;
  }

  /** A shebang-only file receives the shebang, then the header. */
  lemma ShebangOnlyGetsHeader(hs: seq<RenderedHeader>, name: string)
    requires Route(hs, name).Some?
    ensures Apply(hs, true, name, "#!/bin/sh\n") ==
      Run(Applied, "#!/bin/sh\n" + hs[Route(hs, name).value].text + "\n")
  {
    ShebangOnlyLocate();
    var h := hs[Route(hs, name).value];
    ApplyRouted(hs, name, "#!/bin/sh\n");
    assert BlockEnd(h, []) == 0;
    RewriteShebangOnly("#!/bin/sh\n", "#!/bin/sh\n", h.text);
  }

  /** A file with no line after the shebang: the code as written reads the first line
      of an empty list and raises; the corrected application writes the header. */
  lemma EmptyFileCrashesAsWritten(hs: seq<RenderedHeader>, name: string)
    requires Route(hs, name).Some?
    ensures ApplyAsWritten(hs, true, name, "") == Err(IndexError)
    ensures ApplyAsWritten(hs, true, name, "#!/bin/sh\n") == Err(IndexError)
    ensures Apply(hs, true, name, "") == Run(Applied, hs[Route(hs, name).value].text + "\n")
    ensures Apply(hs, true, name, "#!/bin/sh\n") ==
      Run(Applied, "#!/bin/sh\n" + hs[Route(hs, name).value].text + "\n")
  {
    EmptyFileGetsHeader(hs, name);
    LocateEmpty();
    ShebangOnlyLocate();
    ShebangOnlyGetsHeader(hs, name);
  }
  /** The file of the lifted-comment example: an empty line, then a comment. */
  const LiftScript: seq<string> := ["", "# note"]

  lemma LiftScriptLocated()
    ensures Unlines(LiftScript) == "\n# note\n"
    ensures Locate(Unlines(LiftScript)) == Located("", LiftScript)
  {
    assert NoBreaks("") && NoBreaks("# note");
    assert !("#!" <= LiftScript[0]);
    LocatePlain(LiftScript);
    UnlinesPair("", "# note");
  }

  /** Left-stripping the joined lines of the lifted-comment file leaves the comment. */
  lemma LiftStripped()
    ensures LStrip(JoinLines(LiftScript)) == "# note"
  {
    var j := JoinLines(LiftScript);
    assert j == "" + "\n" + JoinLines(["# note"]);
    assert j[1..] == "# note";
    assert IsSpace(j[0]);
    assert LStrip(j) == LStrip(j[1..]);
    assert !IsSpace("# note"[0]);
  }

  /** With nothing detected, the body of the lifted-comment file is the comment. */
  lemma LiftBody(h: RenderedHeader)
    requires h.family == Hash && h.symbols == HashSymbols
    ensures BlockEnd(h, LiftScript) == 0
    ensures Body(h, Located("", LiftScript)) == "# note"
  {
    assert !("#" <= LiftScript[0]);
    assert LiftScript[0..] == LiftScript;
    LiftStripped();
  }

  /** The file text of the header's lines and one more line. */
  lemma UnlinesSnoc(hl: seq<string>, x: string)
    requires |hl| > 0
    ensures Unlines(hl + [x]) == Unlines(hl) + x + "\n"
  {
    UnlinesIsJoinPlusNewline(hl);
    UnlinesIsJoinPlusNewline(hl + [x]);
    JoinSnoc(hl, x);
  }

  /** With nothing detected, the rewrite writes any header above the comment. */
  lemma LiftFirstRewrite(text: string, x: string)
    ensures Rewrite(text, Located("", LiftScript), x, false, 0) == Run(Applied, x + "# note" + "\n")
  {
    LiftStripped();
    assert LiftScript[0..] == LiftScript;
  }

  /** The first application: no header is found, and the left-stripped body is the
      comment, written right below the header. */
  lemma LiftFirstApply(hs: seq<RenderedHeader>, cfg: HeaderConfig)
    requires Rendered(hs, cfg) && SingleLineValues(cfg)
    ensures var hl := HeaderLines(cfg, HashSymbols.Active());
      Apply(hs, true, "main.py", Unlines(LiftScript)) == Run(Applied, Unlines(hl + ["# note"]))
  {
    var hl := HeaderLines(cfg, HashSymbols.Active());
    var text := Unlines(LiftScript);
    PySuffix();
    RoutedRendered(hs, cfg, "main.py", Hash);
    var h := hs[Route(hs, "main.py").value];
    LiftScriptLocated();
    LiftBody(h);
    ApplyRouted(hs, "main.py", text);
    assert !(h.symbols.First() <= LiftScript[0]);
    LiftFirstRewrite(text, h.text);
    HashHeaderLines(cfg);
    UnlinesSnoc(hl, "# note");
  }

  /** The file the first application writes splits into the header's lines and the
      comment, with no shebang set apart. */
  lemma LiftWrittenLocated(cfg: HeaderConfig)
    requires SingleLineValues(cfg)
    ensures var hl := HeaderLines(cfg, HashSymbols.Active());
      Locate(Unlines(hl + ["# note"])) == Located("", hl + ["# note"])
  {
    var hl := HeaderLines(cfg, HashSymbols.Active());
    var c := hl + ["# note"];
    HashHeaderLines(cfg);
    assert AllNoBreaks(c) by {
      assert NoBreaks("# note");
      forall i | 0 <= i < |c| ensures NoBreaks(c[i]) {
        if i < |hl| {
          assert c[i] == hl[i];
        }
      }
    }
    assert c[0] == hl[0];
    LocateHeaderFirst(c, "");
    assert Unlines(c) + "" == Unlines(c);
    assert c + SplitLines("") == c;
  }

  /** Every line of that file starts with `#`, so the corrected scan takes them all. */
  lemma LiftWrittenBlock(h: RenderedHeader, cfg: HeaderConfig)
    requires h.family == Hash && h.symbols == HashSymbols
    ensures var c := HeaderLines(cfg, HashSymbols.Active()) + ["# note"];
      BlockEnd(h, c) == |c|
  {
    var hl := HeaderLines(cfg, HashSymbols.Active());
    var c := hl + ["# note"];
    HashHeaderLinesStart(cfg);
    assert forall i :: 0 <= i < |c| ==> "#" <= c[i] by {
      forall i | 0 <= i < |c| ensures "#" <= c[i] {
        if i < |hl| {
          assert c[i] == hl[i];
        }
      }
    }
    LeadingRunExact(c, "#", |c|);
  }

  /** Nothing is left after a block that covers every line. */
  lemma NothingAfterAll(c: seq<string>)
    ensures LStrip(JoinLines(c[|c|..])) == ""
  {
    assert c[|c|..] == [];
  }

  /** A detected block covering every line that is not the header leaves only the
      header to write. */
  lemma RewriteReplacesAll(text: string, c: seq<string>, x: string)
    requires JoinLines(c) != Strip(x)
    ensures Rewrite(text, Located("", c), x, true, |c|).outcome == Applied
    ensures Rewrite(text, Located("", c), x, true, |c|).content == x + "\n"
  {
    var loc := Located("", c);
    assert loc.content[..|c|] == c;
    var b := LStrip(JoinLines(loc.content[|c|..]));
    assert Rewrite(text, loc, x, true, |c|).content == loc.shebang + x + b + "\n";
    NothingAfterAll(c);
    assert b == "";
    assert loc.shebang + x == x;
    assert x + b == x;
  }

  /** The second application: the comment now continues the `#` run of the header, so
      the block found is not the header and the rewrite drops the comment. */
  lemma LiftSecondApply(hs: seq<RenderedHeader>, cfg: HeaderConfig)
    requires Rendered(hs, cfg) && SingleLineValues(cfg)
    ensures var hl := HeaderLines(cfg, HashSymbols.Active());
      Apply(hs, true, "main.py", Unlines(hl + ["# note"])) == Run(Applied, Unlines(hl) + "\n")
  {
    var hl := HeaderLines(cfg, HashSymbols.Active());
    var c := hl + ["# note"];
    var text := Unlines(c);
    PySuffix();
    RoutedRendered(hs, cfg, "main.py", Hash);
    RenderedStripped(hs, cfg, Route(hs, "main.py").value);
    var h := hs[Route(hs, "main.py").value];
    HashHeaderLines(cfg);
    LiftWrittenLocated(cfg);
    LiftWrittenBlock(h, cfg);
    SnocNotJoin(hl, "# note");
    ApplyRouted(hs, "main.py", text);
    assert c[0] == "#";
    RewriteReplacesAll(text, c, h.text);
  }

  /** Why `ApplyIdempotent` asks that a `#` body not start with `#`: a comment below an
      empty first line is lifted under the header by the first application and dropped
      by the second, in the code as written as much as in the corrected scans. */
  lemma LiftedCommentDropped(hs: seq<RenderedHeader>, cfg: HeaderConfig)
    requires Rendered(hs, cfg) && SingleLineValues(cfg)
    ensures var hl := HeaderLines(cfg, HashSymbols.Active());
      && Apply(hs, true, "main.py", "\n# note\n") == Run(Applied, Unlines(hl + ["# note"]))
      && Apply(hs, true, "main.py", Unlines(hl + ["# note"])) == Run(Applied, Unlines(hl) + "\n")
    ensures var hl := HeaderLines(cfg, HashSymbols.Active());
      && ApplyAsWritten(hs, true, "main.py", "\n# note\n") == Ok(Apply(hs, true, "main.py", "\n# note\n"))
      && ApplyAsWritten(hs, true, "main.py", Unlines(hl + ["# note"])) ==
         Ok(Apply(hs, true, "main.py", Unlines(hl + ["# note"])))
  {
    LiftScriptLocated();
    LiftFirstApply(hs, cfg);
    LiftSecondApply(hs, cfg);
    LiftFirstAsWritten(hs, cfg);
    LiftSecondAsWritten(hs, cfg);
  }

  /** The code as written finds no header in the lifted-comment file either. */
  lemma LiftFirstAsWritten(hs: seq<RenderedHeader>, cfg: HeaderConfig)
    requires Rendered(hs, cfg)
    ensures ApplyAsWritten(hs, true, "main.py", Unlines(LiftScript)) == Ok(Apply(hs, true, "main.py", Unlines(LiftScript)))
  {
    var text := Unlines(LiftScript);
    PySuffix();
    RoutedRendered(hs, cfg, "main.py", Hash);
    var h := hs[Route(hs, "main.py").value];
    LiftScriptLocated();
    assert !(h.symbols.First() <= LiftScript[0]);
    ApplyRouted(hs, "main.py", text);
    ApplyAsWrittenRouted(hs, "main.py", text);
  }

  /** On the file the first application writes, every line starts with `#`, so the
      scan as written takes the same block as the corrected one. */
  lemma LiftSecondAsWritten(hs: seq<RenderedHeader>, cfg: HeaderConfig)
    requires Rendered(hs, cfg) && SingleLineValues(cfg)
    ensures var c := HeaderLines(cfg, HashSymbols.Active()) + ["# note"];
      ApplyAsWritten(hs, true, "main.py", Unlines(c)) == Ok(Apply(hs, true, "main.py", Unlines(c)))
  {
    var c := HeaderLines(cfg, HashSymbols.Active()) + ["# note"];
    PySuffix();
    RoutedRendered(hs, cfg, "main.py", Hash);
    var h := hs[Route(hs, "main.py").value];
    LiftWrittenLocated(cfg);
    LiftWrittenBlock(h, cfg);
    assert ScansMatch(h, c);
    AsWrittenAgrees(hs, true, "main.py", Unlines(c));
  }
}
