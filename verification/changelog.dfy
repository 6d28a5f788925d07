/**
 * The changelog command: finding and printing one version section of the changelog's
 * lines, choosing between a new and the latest section, and collecting entries from
 * the prompt. The section marker (`SECTION_LEVEL`) is a parameter.
 */
module Changelog {
  import opened Wrappers
  import opened PyStr

  /** The text searched for: the marker, followed by the bracketed version when one is given. */
  function Label(level: string, version: string): (l: string)
    ensures level <= l
    ensures version == "" ==> l == level
    ensures version != "" ==> l[|level|..] == " [" + version + "]"
  {
    if version != "" then level + " [" + version + "]" else level
  }

  /** The first index from `from` on whose line starts with `p`; `|lines|` when none does. */
  function FirstStarting(lines: seq<string>, p: string, from: nat): (r: nat)
    requires from <= |lines|
    ensures from <= r <= |lines|
    ensures r < |lines| ==> p <= lines[r]
    ensures forall j :: from <= j < r ==> !(p <= lines[j])
    decreases |lines| - from
  {
    if from == |lines| then from
    else if p <= lines[from] then from
    else FirstStarting(lines, p, from + 1)
  }

  /** Line `i` is the first line that starts with `p`. */
  predicate FirstWith(lines: seq<string>, p: string, i: nat) {
    && i < |lines|
    && p <= lines[i]
    && forall j :: 0 <= j < i ==> !(p <= lines[j])
  }

  /** What `cmd_view` shows: the heading line of the section found and the lines printed
      after it, or that no section carries the label. */
  datatype Shown = Shown(heading: string, printed: seq<string>) | NoSection

  /** An empty changelog ends the command; an empty section body makes `contents[-1]` fail. */
  datatype ViewError = NoEntries | IndexError

  /** The section body: the lines from two after the heading up to the next line that
      starts with the marker, or the end. */
  function SectionBody(existing: seq<string>, level: string, i: nat): (b: seq<string>)
    requires i < |existing|
    ensures forall c :: c in b ==> !(level <= c)
    ensures b != [] ==> i + 2 + |b| <= |existing|
    ensures forall k :: 0 <= k < |b| ==> b[k] == existing[i + 2 + k]
    ensures b != [] ==> !(level <= existing[i + 1])
    ensures b != [] && i + 2 + |b| < |existing| ==> level <= existing[i + 2 + |b|]
    ensures b == [] <==> i + 2 >= |existing| || level <= existing[i + 1] || level <= existing[i + 2]
  {
    var end := FirstStarting(existing, level, i + 1);
    if end > i + 2 then
      assert !(level <= existing[i + 1]) && !(level <= existing[i + 2]);
      existing[i + 2..end]
    else []
  }

  /** The printed lines: the body, and an empty line after it when its last line is
      not empty. */
  function Padded(b: seq<string>): (p: seq<string>)
    ensures b <= p
    ensures p != [] ==> p[|p| - 1] == ""
    ensures |p| <= |b| + 1
    ensures b == [] || b[|b| - 1] == "" ==> p == b
  {
    if b != [] && b[|b| - 1] != "" then b + [""] else b
  }

  /** `cmd_view` as written. */
  function ViewAsWritten(existing: seq<string>, level: string, version: string): (r: Result<Shown, ViewError>)
    ensures r == Err(NoEntries) <==> existing == []
  {
    if existing == [] then Err(NoEntries)
    else
      var i := FirstStarting(existing, Label(level, version), 0);
      if i == |existing| then Ok(NoSection)
      else
        var contents := SectionBody(existing, level, i);
        if |contents| == 0 then Err(IndexError)
        else Ok(Shown(existing[i], Padded(contents)))
  }

  /** `cmd_view` with the last-line test guarded: an empty body prints nothing. */
  function ViewSection(existing: seq<string>, level: string, version: string): (r: Result<Shown, ViewError>)
    ensures r.Err? <==> existing == []
    ensures r == Ok(NoSection) <==>
      existing != [] && forall j :: 0 <= j < |existing| ==> !(Label(level, version) <= existing[j])
    ensures r.Ok? && r.value.Shown? ==> exists i: nat :: (FirstWith(existing, Label(level, version), i) &&
      r.value.heading == existing[i] && r.value.printed == Padded(SectionBody(existing, level, i)))
    ensures r.Ok? && r.value.Shown? && r.value.printed != [] ==> r.value.printed[|r.value.printed| - 1] == ""
  {
    if existing == [] then Err(NoEntries)
    else
      var wanted := Label(level, version);
      var i := FirstStarting(existing, wanted, 0);
      if i == |existing| then Ok(NoSection)
      else
        assert FirstWith(existing, wanted, i);
        Ok(Shown(existing[i], Padded(SectionBody(existing, level, i))))
  }

  /** The code as written fails exactly when the section found has an empty body, and
      otherwise shows what the guarded version shows. */
  lemma ViewAsWrittenAgrees(existing: seq<string>, level: string, version: string)
    ensures ViewAsWritten(existing, level, version) == Err(IndexError) <==>
      (existing != [] && ViewSection(existing, level, version).Ok? &&
       ViewSection(existing, level, version).value.Shown? && ViewSection(existing, level, version).value.printed == [])
    ensures ViewAsWritten(existing, level, version) != Err(IndexError) ==>
      ViewAsWritten(existing, level, version) == ViewSection(existing, level, version)
  {
  }

  /** A changelog whose only section has no entries yet. */
  lemma BareHeadingFails()
    ensures ViewAsWritten(["## [1.0.0]"], "##", "") == Err(IndexError)
    ensures ViewSection(["## [1.0.0]"], "##", "") == Ok(Shown("## [1.0.0]", []))
  {
    var lines := ["## [1.0.0]"];
    assert "##" <= lines[0];
    assert FirstStarting(lines, "##", 0) == 0;
    assert FirstStarting(lines, "##", 1) == 1;
  }

  /** `cmd_add` refuses to add a duplicate version section. */
  datatype AddError = DuplicateVersion

  /** Whether `cmd_add` writes a new section (`true`) or extends the latest one (`false`),
      given the existing lines, the `--new` flag, and whether the configured version is
      absent from the changelog. */
  function AddTarget(existing: seq<string>, wantNew: bool, versionUnique: bool): (r: Result<bool, AddError>)
    ensures r.Err? <==> wantNew && !versionUnique
    ensures r.Ok? ==> (r.value <==> wantNew || existing == [])
  {
    if existing == [] && !wantNew then Ok(true)
    else if wantNew && !versionUnique then Err(DuplicateVersion)
    else Ok(wantNew)
  }

  /** The prompt ran out of answers before an empty one. */
  datatype InputError = EndOfInput

  /** The entry loop of `cmd_add`: answers are recorded until the first empty one, which
      ends the loop and is not recorded. */
  method CollectEntries(answers: seq<string>) returns (r: Result<seq<string>, InputError>)
    ensures r.Err? <==> "" !in answers
    ensures r.Ok? ==> r.value + [""] <= answers && "" !in r.value
  {
    var changes: seq<string> := [];
    var n := 0;
    while n < |answers| && answers[n] != ""
      invariant n <= |answers|
      invariant changes == answers[..n]
      invariant forall j :: 0 <= j < n ==> answers[j] != ""
    {
      changes := changes + [answers[n]];
      n := n + 1;
    }
    if n == |answers| {
      return Err(EndOfInput);
    }
    assert answers[..n + 1] == changes + [""];
    return Ok(changes);
  }

  /** The recorded entries are determined by the answers: the ones before the first
      empty answer. */
  lemma EntriesDetermined(answers: seq<string>, a: seq<string>, b: seq<string>)
    requires a + [""] <= answers && "" !in a
    requires b + [""] <= answers && "" !in b
    ensures a == b
  {
    assert forall j :: 0 <= j < |a| ==> answers[j] == a[j] && a[j] in a;
    assert forall j :: 0 <= j < |b| ==> answers[j] == b[j] && b[j] in b;
    assert answers[|a|] == "" && answers[|b|] == "";
    assert a == answers[..|a|] && b == answers[..|b|];
  }
}
