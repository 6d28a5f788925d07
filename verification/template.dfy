/**
 * The license-header template, its rendering inputs, and the placeholder
 * substitution Python's `str.format` performs on the rendered block.
 */
module Template {
  import opened Wrappers
  import opened PyStr

  /** Rendering inputs. `spaces` is the indent width after the continuation symbol. */
  datatype HeaderConfig = HeaderConfig(title: string, year: string, holder: string, spdxId: string, spaces: int)

  /** Defaults of the class-module config record: empty values, three spaces. */
  const DefaultHeaderConfig: HeaderConfig := HeaderConfig("", "", "", "", 3)

  /** Defaults of the configuration file's header section: bracketed field names, three
      spaces. */
  const ConfigFileHeaderConfig: HeaderConfig := HeaderConfig("[title]", "[year]", "[holder]", "[spdx_id]", 3)

  const ContentsLine: string :=
    "The contents " + "of this file " + "are subject to " + "the terms and " + "conditions " + "defined in the " + "License."
  const ComplianceLine: string :=
    "You may not " + "use, modify, " + "or distribute " + "this file " + "except in " + "compliance " + "with the " + "License."

  /** The eight template lines, placeholders still in braces. */
  const TemplateLines: seq<string> := [
    "{title}",
    "",
    "Copyright (c) " + "{year}" + ", " + "{holder}",
    "",
    ContentsLine,
    ComplianceLine,
    "",
    "SPDX-License-Identifier: {spdx_id}"
  ]

  /** The template lines with the configuration's values in place: what each
      placeholder is meant to become. */
  function Substituted(cfg: HeaderConfig): (ls: seq<string>)
    ensures |ls| == |TemplateLines|
  {
    [
      cfg.title,
      "",
      "Copyright (c) " + cfg.year + ", " + cfg.holder,
      "",
      ContentsLine,
      ComplianceLine,
      "",
      "SPDX-License-Identifier: " + cfg.spdxId
    ]
  }

  /** `spaces * ' '`: a non-positive count gives the empty string. */
  function Indent(spaces: int): (r: string)
    ensures |r| == (if spaces > 0 then spaces else 0)
    ensures forall i :: 0 <= i < |r| ==> r[i] == ' '
  {
    if spaces <= 0 then "" else seq(spaces, _ => ' ')
  }

  /** The placeholder that `s` begins with, as (length, value), if any. */
  function Placeholder(s: string, cfg: HeaderConfig): (r: Option<(nat, string)>)
    ensures r.Some? ==> 0 < r.value.0 <= |s| && s[0] == '{' && '\n' !in s[..r.value.0]
  {
    if |s| == 0 || s[0] != '{' then None
    else if "{title}" <= s then Some((7, cfg.title))
    else if "{year}" <= s then Some((6, cfg.year))
    else if "{holder}" <= s then Some((8, cfg.holder))
    else if "{spdx_id}" <= s then Some((9, cfg.spdxId))
    else None
  }

  /** What substitution makes of the front of a non-empty `s`: the placeholder there and
      its value, or else the first character as it is, with the length consumed. */
  function Lead(s: string, cfg: HeaderConfig): (r: (nat, string))
    requires |s| > 0
    ensures 0 < r.0 <= |s|
    ensures Placeholder(s, cfg).None? ==> r == (1, [s[0]])
  {
    match Placeholder(s, cfg)
    case Some(p) => p
    case None => (1, [s[0]])
  }

  /** `s.format(title=…, year=…, holder=…, spdx_id=…)`: every placeholder is replaced
      by its value, which is not scanned again; every other character is kept. */
  function Format(s: string, cfg: HeaderConfig): string
    decreases |s|
  {
    if |s| == 0 then ""
    else
      var (n, v) := Lead(s, cfg);
      v + Format(s[n..], cfg)
  }

  /** A character absent from a non-empty sequence is neither its head nor in its tail. */
  lemma NotInSplit<T>(x: seq<T>, c: T)
    requires |x| > 0 && c !in x
    ensures x[0] != c && c !in x[1..]
  {
    assert x[0] in x;
    assert forall i :: 0 <= i < |x[1..]| ==> x[1..][i] == x[i + 1];
  }

  /** A character other than `{` passes through substitution unchanged. */
  lemma FormatPlainStep(c: char, rest: string, cfg: HeaderConfig)
    requires c != '{'
    ensures Format([c] + rest, cfg) == [c] + Format(rest, cfg)
  {
    var s := [c] + rest;
    assert s[0] == c;
    assert Placeholder(s, cfg).None?;
    assert s[1..] == rest;
  }

  /** A brace-free prefix passes through substitution unchanged. */
  lemma {:induction false} FormatPlainPrefix(x: string, y: string, cfg: HeaderConfig)
    requires '{' !in x
    ensures Format(x + y, cfg) == x + Format(y, cfg)
    decreases |x|
  {
    if |x| > 0 {
      var c, t := x[0], x[1..];
      NotInSplit(x, '{');
      HeadTail(x, y);
      FormatPlainStep(c, t + y, cfg);
      FormatPlainPrefix(t, y, cfg);
      AppendAssoc([c], t, Format(y, cfg));
    } else {
      assert x + y == y;
    }
  }

  /** Text without braces is left exactly as it is. */
  lemma FormatNoBrace(x: string, cfg: HeaderConfig)
    requires '{' !in x
    ensures Format(x, cfg) == x
  {
    FormatPlainPrefix(x, "", cfg);
    assert x + "" == x;
  }

  /** A placeholder, which holds no newline, begins in `a + "\n" + b` exactly when it begins in `a`. */
  lemma PrefixAcrossNewline(p: string, a: string, b: string)
    requires |p| > 0 && '\n' !in p
    ensures p <= a + "\n" + b <==> p <= a
  {
    var s := a + "\n" + b;
    if p <= a {
      assert s[..|a|] == a;
    }
    if p <= s {
      assert forall k :: 0 <= k < |p| ==> p[k] != '\n';
      assert s[|a|] == '\n';
      assert |p| <= |a|;
      assert p == a[..|p|];
    }
  }

  /** The placeholder found at the start of `a` is the one found at the start of `a + "\n" + b`. */
  lemma PlaceholderAcrossNewline(a: string, b: string, cfg: HeaderConfig)
    ensures Placeholder(a + "\n" + b, cfg) == Placeholder(a, cfg)
  {
    PrefixAcrossNewline("{title}", a, b);
    PrefixAcrossNewline("{year}", a, b);
    PrefixAcrossNewline("{holder}", a, b);
    PrefixAcrossNewline("{spdx_id}", a, b);
  }

  /** The front of `a + "\n" + b` is the front of `a`, for any non-empty `a`. */
  lemma LeadAcrossNewline(a: string, b: string, cfg: HeaderConfig)
    requires |a| > 0
    ensures Lead(a + "\n" + b, cfg) == Lead(a, cfg)
  {
    PlaceholderAcrossNewline(a, b, cfg);
    assert (a + "\n" + b)[0] == a[0];
  }

  /** A newline at the front passes through substitution. */
  lemma FormatNewlineFront(b: string, cfg: HeaderConfig)
    ensures Format("" + "\n" + b, cfg) == Format("", cfg) + "\n" + Format(b, cfg)
  {
    var s := "" + "\n" + b;
    assert s == "\n" + b;
    assert s[0] == '\n' && s[1..] == b;
    assert Placeholder(s, cfg).None?;
  }

  /** Substitution of a non-empty text: the front, then the rest. */
  lemma FormatUnfold(s: string, cfg: HeaderConfig)
    requires |s| > 0
    ensures Format(s, cfg) == Lead(s, cfg).1 + Format(s[Lead(s, cfg).0..], cfg)
  {
  }

  /** One step of `FormatNewline`: the front of `a` is substituted, then the rest. */
  lemma FormatNewlineStep(a: string, b: string, cfg: HeaderConfig)
    requires |a| > 0
    requires var n := Lead(a, cfg).0;
      Format(a[n..] + "\n" + b, cfg) == Format(a[n..], cfg) + "\n" + Format(b, cfg)
    ensures Format(a + "\n" + b, cfg) == Format(a, cfg) + "\n" + Format(b, cfg)
  {
    var s := a + "\n" + b;
    LeadAcrossNewline(a, b, cfg);
    var n, v := Lead(a, cfg).0, Lead(a, cfg).1;
    SliceJoin3(a, "\n", b, n);
    FormatUnfold(s, cfg);
    FormatUnfold(a, cfg);
    AppendAssoc3(v, Format(a[n..], cfg), "\n", Format(b, cfg));
  }

  /** No placeholder reaches across a newline, so the newline splits substitution. */
  lemma {:induction false} FormatNewline(a: string, b: string, cfg: HeaderConfig)
    ensures Format(a + "\n" + b, cfg) == Format(a, cfg) + "\n" + Format(b, cfg)
    decreases |a|
  {
    if |a| == 0 {
      assert a == "";
      FormatNewlineFront(b, cfg);
    } else {
      FormatNewline(a[Lead(a, cfg).0..], b, cfg);
      FormatNewlineStep(a, b, cfg);
    }
  }

  /** Each line substituted on its own. */
  function FormatEach(ls: seq<string>, cfg: HeaderConfig): (r: seq<string>)
    ensures |r| == |ls| && forall i :: 0 <= i < |ls| ==> r[i] == Format(ls[i], cfg)
  {
    seq(|ls|, i requires 0 <= i < |ls| => Format(ls[i], cfg))
  }

  /** Substituting the joined text equals joining the substituted lines. */
  lemma {:induction false} FormatJoin(ls: seq<string>, cfg: HeaderConfig)
    ensures Format(JoinLines(ls), cfg) == JoinLines(FormatEach(ls, cfg))
    decreases |ls|
  {
    if |ls| > 1 {
      FormatNewline(ls[0], JoinLines(ls[1..]), cfg);
      FormatJoin(ls[1..], cfg);
      assert FormatEach(ls, cfg)[1..] == FormatEach(ls[1..], cfg);
    }
  }

  /** `p` is not a prefix of `s` when they differ at some index both have. */
  lemma NotPrefixAt(p: string, s: string, k: nat)
    requires k < |p| && k < |s| && p[k] != s[k]
    ensures !(p <= s)
  {
  }

  /** A placeholder at the front of the text is replaced by its value. */
  lemma FormatTitle(rest: string, cfg: HeaderConfig)
    ensures Format("{title}" + rest, cfg) == cfg.title + Format(rest, cfg)
  {
    var t := "{title}" + rest;
    assert t[..7] == "{title}" && t[7..] == rest;
  }

  lemma FormatYear(rest: string, cfg: HeaderConfig)
    ensures Format("{year}" + rest, cfg) == cfg.year + Format(rest, cfg)
  {
    var y := "{year}" + rest;
    assert y[..6] == "{year}" && y[6..] == rest;
    NotPrefixAt("{title}", y, 1);
  }

  lemma FormatHolder(rest: string, cfg: HeaderConfig)
    ensures Format("{holder}" + rest, cfg) == cfg.holder + Format(rest, cfg)
  {
    var h := "{holder}" + rest;
    assert h[..8] == "{holder}" && h[8..] == rest;
    NotPrefixAt("{title}", h, 1);
    NotPrefixAt("{year}", h, 1);
  }

  lemma FormatSpdxId(rest: string, cfg: HeaderConfig)
    ensures Format("{spdx_id}" + rest, cfg) == cfg.spdxId + Format(rest, cfg)
  {
    var d := "{spdx_id}" + rest;
    assert d[..9] == "{spdx_id}" && d[9..] == rest;
    NotPrefixAt("{title}", d, 1);
    NotPrefixAt("{year}", d, 1);
    NotPrefixAt("{holder}", d, 1);
  }

  lemma FormatHolderTail(cfg: HeaderConfig)
    ensures Format(", " + ("{holder}" + ""), cfg) == ", " + cfg.holder
  {
    FormatPlainPrefix(", ", "{holder}" + "", cfg);
    FormatHolder("", cfg);
    assert cfg.holder + Format("", cfg) == cfg.holder;
  }

  lemma FormatYearTail(cfg: HeaderConfig)
    ensures Format("{year}" + (", " + ("{holder}" + "")), cfg) == cfg.year + ", " + cfg.holder
  {
    FormatYear(", " + ("{holder}" + ""), cfg);
    FormatHolderTail(cfg);
  }

  /** The copyright line: plain text, the year, plain text, the holder. */
  lemma FormatCopyrightLine(cfg: HeaderConfig)
    ensures Format(TemplateLines[2], cfg) == "Copyright (c) " + cfg.year + ", " + cfg.holder
  {
    var y := "{year}" + (", " + ("{holder}" + ""));
    assert TemplateLines[2] == "Copyright (c) " + y;
    FormatPlainPrefix("Copyright (c) ", y, cfg);
    FormatYearTail(cfg);
  }

  /** The two fixed sentences carry no placeholder. */
  lemma ContentsLineBraceFree()
    ensures '{' !in ContentsLine
  {
  }

  lemma ComplianceLineBraceFree()
    ensures '{' !in ComplianceLine
  {
  }

  /** Brace-free text followed by the SPDX placeholder. */
  lemma FormatPlainThenSpdx(p: string, cfg: HeaderConfig)
    requires '{' !in p
    ensures Format(p + ("{spdx_id}" + ""), cfg) == p + cfg.spdxId
  {
    FormatPlainPrefix(p, "{spdx_id}" + "", cfg);
    FormatSpdxId("", cfg);
    assert cfg.spdxId + Format("", cfg) == cfg.spdxId;
  }

  lemma FormatSpdxLine(cfg: HeaderConfig)
    ensures Format(TemplateLines[7], cfg) == "SPDX-License-Identifier: " + cfg.spdxId
  {
    var p := "SPDX-License-Identifier: ";
    assert TemplateLines[7] == p + ("{spdx_id}" + "");
    assert '{' !in p;
    FormatPlainThenSpdx(p, cfg);
  }

  /** Substitution turns the template into `Substituted`: the title line becomes the
      title, the copyright line carries year and holder, the last line the SPDX id. */
  lemma FormatTemplate(cfg: HeaderConfig)
    ensures FormatEach(TemplateLines, cfg) == Substituted(cfg)
  {
    var f := FormatEach(TemplateLines, cfg);
    var e := Substituted(cfg);
    forall i | 0 <= i < |TemplateLines|
      ensures f[i] == e[i]
    {
      FormatTemplateLine(cfg, i);
    }
  }

  /** The two fixed sentences pass through unchanged. */
  lemma FormatContentsLine(cfg: HeaderConfig)
    ensures Format(TemplateLines[4], cfg) == Substituted(cfg)[4]
  {
    var x := ContentsLine;
    ContentsLineBraceFree();
    FormatNoBrace(x, cfg);
  }

  lemma FormatComplianceLine(cfg: HeaderConfig)
    ensures Format(TemplateLines[5], cfg) == Substituted(cfg)[5]
  {
    var x := ComplianceLine;
    ComplianceLineBraceFree();
    FormatNoBrace(x, cfg);
  }

  lemma FormatTitleLine(cfg: HeaderConfig)
    ensures Format(TemplateLines[0], cfg) == Substituted(cfg)[0]
  {
    assert TemplateLines[0] == "{title}" + "";
    FormatTitle("", cfg);
  }

  lemma FormatTemplateLine(cfg: HeaderConfig, i: nat)
    requires i < |TemplateLines|
    ensures Format(TemplateLines[i], cfg) == Substituted(cfg)[i]
  {
    if i == 0 {
      FormatTitleLine(cfg);
    } else if i == 2 {
      FormatCopyrightLine(cfg);
    } else if i == 4 {
      FormatContentsLine(cfg);
    } else if i == 5 {
      FormatComplianceLine(cfg);
    } else if i == 7 {
      FormatSpdxLine(cfg);
    } else {
      assert TemplateLines[i] == "";
    }
  }

  /** Printable ASCII text, which holds no line break. */
  predicate Printable(s: string) {
    forall i :: 0 <= i < |s| ==> ' ' <= s[i] <= '~'
  }

  lemma PrintableAppend(a: string, b: string)
    requires Printable(a) && Printable(b)
    ensures Printable(a + b)
  {
    forall i | 0 <= i < |a + b| ensures ' ' <= (a + b)[i] <= '~' {
      if i >= |a| {
        assert (a + b)[i] == b[i - |a|];
      }
    }
  }

  lemma PrintableNoBreaks(s: string)
    requires Printable(s)
    ensures NoBreaks(s)
  {
  }

  /** The words of the two fixed sentences, a few at a time. */
  lemma ContentsHeadPrintable()
    ensures Printable("The contents ") && Printable("of this file ") && Printable("are subject to ")
    ensures Printable("the terms and ")
  {
  }

  lemma ContentsTailPrintable()
    ensures Printable("conditions ") && Printable("defined in the ") && Printable("License.")
  {
  }

  lemma ComplianceHeadPrintable()
    ensures Printable("You may not ") && Printable("use, modify, ") && Printable("or distribute ")
    ensures Printable("this file ")
  {
  }

  lemma ComplianceTailPrintable()
    ensures Printable("except in ") && Printable("compliance ") && Printable("with the ")
  {
  }

  /** The two fixed sentences are single lines. */
  lemma ContentsLineNoBreaks()
    ensures NoBreaks(ContentsLine)
  {
    var w1, w2, w3, w4 := "The contents ", "of this file ", "are subject to ", "the terms and ";
    var w5, w6, w7 := "conditions ", "defined in the ", "License.";
    ContentsHeadPrintable();
    ContentsTailPrintable();
    PrintableAppend(w1, w2);
    PrintableAppend(w1 + w2, w3);
    PrintableAppend(w1 + w2 + w3, w4);
    PrintableAppend(w1 + w2 + w3 + w4, w5);
    PrintableAppend(w1 + w2 + w3 + w4 + w5, w6);
    PrintableAppend(w1 + w2 + w3 + w4 + w5 + w6, w7);
    PrintableNoBreaks(ContentsLine);
  }

  lemma ComplianceLineNoBreaks()
    ensures NoBreaks(ComplianceLine)
  {
    var w1, w2, w3, w4 := "You may not ", "use, modify, ", "or distribute ", "this file ";
    var w5, w6, w7, w8 := "except in ", "compliance ", "with the ", "License.";
    ComplianceHeadPrintable();
    ComplianceTailPrintable();
    ContentsTailPrintable();
    PrintableAppend(w1, w2);
    PrintableAppend(w1 + w2, w3);
    PrintableAppend(w1 + w2 + w3, w4);
    PrintableAppend(w1 + w2 + w3 + w4, w5);
    PrintableAppend(w1 + w2 + w3 + w4 + w5, w6);
    PrintableAppend(w1 + w2 + w3 + w4 + w5 + w6, w7);
    PrintableAppend(w1 + w2 + w3 + w4 + w5 + w6 + w7, w8);
    PrintableNoBreaks(ComplianceLine);
  }

  /** The copyright and SPDX lines are single lines when their values are. */
  lemma CopyrightNoBreaks(cfg: HeaderConfig)
    requires NoBreaks(cfg.year) && NoBreaks(cfg.holder)
    ensures NoBreaks("Copyright (c) " + cfg.year + ", " + cfg.holder)
  {
    assert Printable("Copyright (c) ") && Printable(", ");
    PrintableNoBreaks("Copyright (c) ");
    PrintableNoBreaks(", ");
    NoBreaksAppend("Copyright (c) ", cfg.year);
    NoBreaksAppend("Copyright (c) " + cfg.year, ", ");
    NoBreaksAppend("Copyright (c) " + cfg.year + ", ", cfg.holder);
  }

  lemma SpdxNoBreaks(cfg: HeaderConfig)
    requires NoBreaks(cfg.spdxId)
    ensures NoBreaks("SPDX-License-Identifier: " + cfg.spdxId)
  {
    assert Printable("SPDX-License-Identifier: ");
    PrintableNoBreaks("SPDX-License-Identifier: ");
    NoBreaksAppend("SPDX-License-Identifier: ", cfg.spdxId);
  }

  /** Values without line breaks give substituted lines without line breaks. */
  lemma SubstitutedNoBreaks(cfg: HeaderConfig)
    requires NoBreaks(cfg.title) && NoBreaks(cfg.year) && NoBreaks(cfg.holder) && NoBreaks(cfg.spdxId)
    ensures AllNoBreaks(Substituted(cfg))
  {
    ContentsLineNoBreaks();
    ComplianceLineNoBreaks();
    CopyrightNoBreaks(cfg);
    SpdxNoBreaks(cfg);
    assert NoBreaks("");
  }
}
