/**
 * Rendering a license header for one comment family: an opener line, each
 * template line after the continuation prefix and the indent, a closer line
 * with a trailing newline, all joined by newlines and then substituted.
 */
module Render {
  import opened PyStr
  import opened Symbols
  import opened Registry
  import opened Template

  /** A family's header data after construction: its symbols and rendered text. */
  datatype RenderedHeader = RenderedHeader(family: Family, symbols: CommentSymbols, text: string)

  /** `[p + l for l in ls]` */
  function Prefixed(p: string, ls: seq<string>): (r: seq<string>)
    ensures |r| == |ls| && forall i :: 0 <= i < |ls| ==> r[i] == p + ls[i]
  {
    seq(|ls|, i requires 0 <= i < |ls| => p + ls[i])
  }

  /** The list joined before substitution; the closer carries its own newline. */
  function RawLines(t: Triple, indent: string): seq<string> {
    [t.first] + Prefixed(t.middle + indent, TemplateLines) + [t.last + "\n"]
  }

  /** The rendered header text: the joined raw lines, substituted. */
  function RenderText(cfg: HeaderConfig, t: Triple): string {
    Format(JoinLines(RawLines(t, Indent(cfg.spaces))), cfg)
  }

  /** Reference definition: the ten lines a header occupies in a file. */
  function HeaderLines(cfg: HeaderConfig, t: Triple): seq<string> {
    [t.first] + Prefixed(t.middle + Indent(cfg.spaces), Substituted(cfg)) + [t.last]
  }

  /** The header's lines one by one: the opener, eight middle lines, the closer. */
  lemma HeaderLineAt(cfg: HeaderConfig, t: Triple, i: nat)
    requires i < |TemplateLines| + 2
    ensures |HeaderLines(cfg, t)| == |TemplateLines| + 2
    ensures HeaderLines(cfg, t)[i] ==
      if i == 0 then t.first
      else if i == |TemplateLines| + 1 then t.last
      else t.middle + Indent(cfg.spaces) + Substituted(cfg)[i - 1]
  {
  }

  /** When the three symbols begin with `m`, every header line does. */
  lemma HeaderLinesStartWith(cfg: HeaderConfig, t: Triple, m: string)
    requires m <= t.first && m <= t.middle && m <= t.last
    ensures var hl := HeaderLines(cfg, t);
      forall i :: 0 <= i < |hl| ==> m <= hl[i]
  {
    var hl := HeaderLines(cfg, t);
    forall i | 0 <= i < |hl| ensures m <= hl[i] {
      HeaderLineAt(cfg, t, i);
      if 0 < i < |hl| - 1 {
        var rest := Indent(cfg.spaces) + Substituted(cfg)[i - 1];
        AppendAssoc(t.middle, Indent(cfg.spaces), Substituted(cfg)[i - 1]);
        PrefixOfAppend(t.middle, rest);
      }
    }
  }

  predicate BraceFree(t: Triple) {
    '{' !in t.first && '{' !in t.middle && '{' !in t.last
  }

  /** Rendering gives the header's lines, each ended by a newline: no symbol or indent
      character is altered by substitution, and each template line gets its value. */
  lemma RenderIsHeaderLines(cfg: HeaderConfig, t: Triple)
    requires BraceFree(t)
    ensures |HeaderLines(cfg, t)| == |TemplateLines| + 2
    ensures RenderText(cfg, t) == Unlines(HeaderLines(cfg, t))
  {
    var p := t.middle + Indent(cfg.spaces);
    assert '{' !in p by {
      forall k | 0 <= k < |p| ensures p[k] != '{' {
        if k >= |t.middle| {
          assert p[k] == Indent(cfg.spaces)[k - |t.middle|];
        } else {
          assert p[k] == t.middle[k];
        }
      }
    }
    var raw := RawLines(t, Indent(cfg.spaces));
    var hl := HeaderLines(cfg, t);
    var f := FormatEach(raw, cfg);
    FormatJoin(raw, cfg);
    assert f == hl[..|hl| - 1] + [t.last + "\n"] by {
      forall i | 0 <= i < |f| ensures f[i] == (hl[..|hl| - 1] + [t.last + "\n"])[i] {
        if i == 0 {
          FormatNoBrace(t.first, cfg);
        } else if i == |f| - 1 {
          assert '{' !in t.last + "\n";
          FormatNoBrace(t.last + "\n", cfg);
        } else {
          assert raw[i] == p + TemplateLines[i - 1];
          FormatPlainPrefix(p, TemplateLines[i - 1], cfg);
          FormatTemplateLine(cfg, i - 1);
        }
      }
    }
    JoinWithNewlineLast(hl[..|hl| - 1], t.last);
    assert hl[..|hl| - 1] + [t.last] == hl;
  }

  /** Both families' symbols are free of braces. */
  lemma FamiliesBraceFree(f: Family)
    ensures BraceFree(FamilySymbols(f).Active())
  {
    var t := FamilySymbols(f).Active();
    assert t == Triple("#", "#", "#") || t == Triple("/*", " *", " */");
  }

  /** The constructor: one header per family, star first and then hash, each rendered
      from that family's symbols. */
  function RenderAll(cfg: HeaderConfig): (r: seq<RenderedHeader>)
    ensures |r| == |RenderOrder|
    ensures forall i :: 0 <= i < |r| ==>
      && r[i].family == RenderOrder[i]
      && r[i].symbols == FamilySymbols(RenderOrder[i])
      && r[i].text == Unlines(HeaderLines(cfg, FamilySymbols(RenderOrder[i]).Active()))
  {
    FamiliesBraceFree(Star);
    FamiliesBraceFree(Hash);
    RenderIsHeaderLines(cfg, FamilySymbols(Star).Active());
    RenderIsHeaderLines(cfg, FamilySymbols(Hash).Active());
    seq(|RenderOrder|, i requires 0 <= i < |RenderOrder| =>
      RenderedHeader(RenderOrder[i], FamilySymbols(RenderOrder[i]),
        RenderText(cfg, FamilySymbols(RenderOrder[i]).Active())))
  }

  /** Configuration values that keep every header line a single line. */
  predicate SingleLineValues(cfg: HeaderConfig) {
    NoBreaks(cfg.title) && NoBreaks(cfg.year) && NoBreaks(cfg.holder) && NoBreaks(cfg.spdxId)
  }

  /** With single-line values and symbols, no header line holds a line break, so
      splitting a file that begins with the header gives back the header's lines. */
  lemma HeaderLinesSplit(cfg: HeaderConfig, t: Triple, rest: string)
    requires SingleLineValues(cfg)
    requires NoBreaks(t.first) && NoBreaks(t.middle) && NoBreaks(t.last)
    ensures AllNoBreaks(HeaderLines(cfg, t))
    ensures SplitLines(Unlines(HeaderLines(cfg, t)) + rest) == HeaderLines(cfg, t) + SplitLines(rest)
  {
    var p := t.middle + Indent(cfg.spaces);
    assert NoBreaks(Indent(cfg.spaces));
    NoBreaksAppend(t.middle, Indent(cfg.spaces));
    SubstitutedNoBreaks(cfg);
    var s := Substituted(cfg);
    forall i | 0 <= i < |s| ensures NoBreaks(p + s[i]) {
      NoBreaksAppend(p, s[i]);
    }
    SplitAfterUnlines(HeaderLines(cfg, t), rest);
  }

  /** The rendered text, stripped, is the header's lines joined: the opener's first and
      the closer's last character are not whitespace. */
  lemma StrippedHeader(cfg: HeaderConfig, t: Triple)
    requires |t.first| > 0 && !IsSpace(t.first[0])
    requires |t.last| > 0 && !IsSpace(t.last[|t.last| - 1])
    ensures Strip(Unlines(HeaderLines(cfg, t))) == JoinLines(HeaderLines(cfg, t))
  {
    var hl := HeaderLines(cfg, t);
    assert hl[0] == t.first && hl[|hl| - 1] == t.last;
    StripUnlines(hl);
  }

  /** With the defaults of the configuration file's header section, each bracketed field
      name stands in its place. */
  lemma ConfigFileRendering(t: Triple)
    ensures HeaderLines(ConfigFileHeaderConfig, t)[1] == t.middle + "   " + "[title]"
    ensures HeaderLines(ConfigFileHeaderConfig, t)[3] == t.middle + "   " + "Copyright (c) [year], [holder]"
    ensures HeaderLines(ConfigFileHeaderConfig, t)[8] == t.middle + "   " + "SPDX-License-Identifier: [spdx_id]"
  {
    assert Indent(3) == "   ";
    assert "Copyright (c) " + "[year]" + ", " + "[holder]" == "Copyright (c) [year], [holder]";
    assert "SPDX-License-Identifier: " + "[spdx_id]" == "SPDX-License-Identifier: [spdx_id]";
  }

  /** With the class module's default configuration every value is empty and the indent
      is three spaces. */
  lemma DefaultRendering(t: Triple)
    ensures Indent(DefaultHeaderConfig.spaces) == "   "
    ensures HeaderLines(DefaultHeaderConfig, t)[1] == t.middle + "   "
    ensures HeaderLines(DefaultHeaderConfig, t)[3] == t.middle + "   " + "Copyright (c) , "
    ensures HeaderLines(DefaultHeaderConfig, t)[8] == t.middle + "   " + "SPDX-License-Identifier: "
  {
    assert Indent(3) == "   ";
  }
}
