/**
 * The license command's helpers: the simpler license applier for Python files,
 * the metadata index written next to the stored licenses, and the lookup of a
 * stored license file by index number or SPDX identifier.
 */
module LicenseHelpers {
  import opened Wrappers
  import opened PyStr
  import opened Detect

  /** `content[:k]` are lines starting with `#` and `content[k]`, if any, is not. */
  predicate CommentRun(content: seq<string>, k: nat) {
    && k <= |content|
    && (forall i :: 0 <= i < k ==> "#" <= content[i])
    && (k < |content| ==> !("#" <= content[k]))
  }

  /** `apply_license` on one file: `None` when the file's first lines are the license lines
      (no write), otherwise the text written: the license lines, a newline, and the file's
      lines after its leading run of `#` lines. */
  function ApplyLicense(license: seq<string>, text: string): (r: Option<string>)
    ensures r.None? <==> license <= SplitLines(text)
    ensures r.Some? ==> exists k: nat :: (CommentRun(SplitLines(text), k) &&
      r.value == JoinLines(license) + "\n" + JoinLines(SplitLines(text)[k..]))
  {
    var content := SplitLines(text);
    var head := if |license| <= |content| then content[..|license|] else content;
    if head == license then None
    else
      var k := LeadingRun(content, "#");
      assert CommentRun(content, k);
      Some(JoinLines(license) + "\n" + JoinLines(content[k..]))
  }

  /** Applying twice writes once: the written file begins with the license lines, provided
      no license line holds a line break. */
  lemma ApplyLicenseIdempotent(license: seq<string>, text: string)
    requires AllNoBreaks(license)
    ensures var r := ApplyLicense(license, text);
      r.Some? ==> ApplyLicense(license, r.value).None?
  {
    var r := ApplyLicense(license, text);
    if r.Some? {
      var k: nat :| CommentRun(SplitLines(text), k) &&
        r.value == JoinLines(license) + "\n" + JoinLines(SplitLines(text)[k..]);
      var body := JoinLines(SplitLines(text)[k..]);
      UnlinesIsJoinPlusNewline(license);
      assert r.value == Unlines(license) + body;
      SplitAfterUnlines(license, body);
    }
  }

  /** A small script that starts with a shebang line. */
  const ShebangScript: seq<string> := ["#!/usr/bin/env python3", "print(1)"]

  lemma ShebangScriptLines()
    ensures SplitLines(Unlines(ShebangScript)) == ShebangScript
  {
    var first := ShebangScript[0];
    assert NoBreaks(first) by {
      assert first == "#!/usr/bin" + "/env python3";
      assert NoBreaks("#!/usr/bin");
      assert NoBreaks("/env python3");
      NoBreaksAppend("#!/usr/bin", "/env python3");
    }
    assert NoBreaks(ShebangScript[1]);
    SplitUnlines(ShebangScript);
  }

  /** A shebang line counts as a comment line, so the applier drops it with the rest of
      the leading `#` lines. */
  lemma ApplyLicenseDropsShebang()
    ensures ApplyLicense(["# MIT"], Unlines(ShebangScript)) == Some("# MIT\nprint(1)")
  {
    ShebangScriptLines();
    ShebangScriptRun();
    ApplyLicenseWrites(["# MIT"], Unlines(ShebangScript), 1);
    LicenseAboveTail();
  }

  /** The shebang alone makes up the leading `#` run of that file. */
  lemma ShebangScriptRun()
    ensures LeadingRun(ShebangScript, "#") == 1 && ShebangScript[1..] == ["print(1)"]
    ensures !(["# MIT"] <= ShebangScript)
  {
    var content := ShebangScript;
    assert content[0][0] == '#' && content[1][0] != '#';
    assert "#" <= content[0] && !("#" <= content[1]);
    assert forall i :: 0 <= i < 1 ==> "#" <= content[i];
    LeadingRunExact(content, "#", 1);
    assert content[0] != "# MIT";
  }

  lemma LicenseAboveTail()
    ensures JoinLines(["# MIT"]) + "\n" + JoinLines(["print(1)"]) == "# MIT\nprint(1)"
  {
    assert JoinLines(["# MIT"]) == "# MIT";
    assert JoinLines(["print(1)"]) == "print(1)";
  }

  /** When the file does not begin with the license, the license is written above the
      lines after the leading `#` run. */
  lemma ApplyLicenseWrites(license: seq<string>, text: string, k: nat)
    requires !(license <= SplitLines(text)) && LeadingRun(SplitLines(text), "#") == k
    ensures ApplyLicense(license, text) == Some(JoinLines(license) + "\n" + JoinLines(SplitLines(text)[k..]))
  {
  }

  /** A license record after fetching, as the metadata builder reads it. */
  datatype License = License(indexId: string, spdxId: string, title: string, filename: string)

  /** One entry of the metadata's license list. */
  datatype Summary = Summary(indexId: string, spdxId: string, title: string)

  /** The metadata file: identifier keys in insertion order with their paths, and the list. */
  datatype Metadata = Metadata(identMap: seq<(string, string)>, licList: seq<Summary>)

  /** The `ident_map` key of a license. */
  function Key(l: License): string {
    l.indexId + "==" + l.spdxId
  }

  /** Where a license file is stored, below the licenses directory `dir`. */
  function StoredPath(dir: string, filename: string): string {
    dir + "/" + filename
  }

  /** Position of `k` among the keys of an insertion-ordered dict. */
  function IndexOf(m: seq<(string, string)>, k: string): (r: Option<nat>)
    ensures r.Some? ==> r.value < |m| && m[r.value].0 == k
    ensures r.Some? ==> forall j :: 0 <= j < r.value ==> m[j].0 != k
    ensures r.None? ==> forall j :: 0 <= j < |m| ==> m[j].0 != k
  {
    if |m| == 0 then None
    else if m[0].0 == k then Some(0)
    else
      match IndexOf(m[1..], k)
      case None => None
      case Some(i) => Some(i + 1)
  }

  /** `d.get(k)` */
  function Get(m: seq<(string, string)>, k: string): Option<string> {
    match IndexOf(m, k)
    case None => None
    case Some(i) => Some(m[i].1)
  }

  /** `d[k] = v`: a key already present keeps its place and takes the new value; a new
      key goes last. */
  function Put(m: seq<(string, string)>, k: string, v: string): (r: seq<(string, string)>)
    ensures |r| == |m| || |r| == |m| + 1
    ensures forall j :: 0 <= j < |m| ==> r[j].0 == m[j].0
  {
    match IndexOf(m, k)
    case Some(i) => m[i := (k, v)]
    case None => m + [(k, v)]
  }

  /** After `d[k] = v`, `k` maps to `v` and every other key keeps its value. */
  lemma PutGet(m: seq<(string, string)>, k: string, v: string, k': string)
    ensures Get(Put(m, k, v), k') == if k' == k then Some(v) else Get(m, k')
  {
    var r := Put(m, k, v);
    match IndexOf(m, k)
    case Some(i) =>
      assert r == m[i := (k, v)];
      if k' != k {
        match IndexOf(m, k')
        case Some(i') => assert r[i'] == m[i'];
        case None =>
      }
    case None =>
      assert r == m + [(k, v)];
      assert r[|m|] == (k, v);
      if k' != k {
        match IndexOf(m, k')
        case Some(i') => assert r[i'] == m[i'];
        case None =>
          assert forall j :: 0 <= j < |r| ==> r[j].0 != k';
      }
  }

  /** No key occurs twice. */
  predicate UniqueKeys(m: seq<(string, string)>) {
    forall i, j :: 0 <= i < j < |m| ==> m[i].0 != m[j].0
  }

  /** Setting a key keeps the keys unique. */
  lemma PutUnique(m: seq<(string, string)>, k: string, v: string)
    requires UniqueKeys(m)
    ensures UniqueKeys(Put(m, k, v))
  {
  }

  /** The metadata the loop of `write_licenses_to_storage` builds, record by record. */
  function BuildMetadata(dir: string, ls: seq<License>): (m: Metadata)
    ensures |m.licList| == |ls|
    ensures forall i :: 0 <= i < |ls| ==>
      m.licList[i] == Summary(ls[i].indexId, ls[i].spdxId, ls[i].title)
    ensures UniqueKeys(m.identMap)
  {
    if |ls| == 0 then Metadata([], [])
    else
      var prev := BuildMetadata(dir, ls[..|ls| - 1]);
      var l := ls[|ls| - 1];
      PutUnique(prev.identMap, Key(l), StoredPath(dir, l.filename));
      Metadata(Put(prev.identMap, Key(l), StoredPath(dir, l.filename)),
        prev.licList + [Summary(l.indexId, l.spdxId, l.title)])
  }

  /** A record's key maps to that record's path unless a later record has the same key. */
  lemma {:induction false} MetadataLastWins(dir: string, ls: seq<License>, i: nat)
    requires i < |ls|
    requires forall j :: i < j < |ls| ==> Key(ls[j]) != Key(ls[i])
    ensures Get(BuildMetadata(dir, ls).identMap, Key(ls[i])) == Some(StoredPath(dir, ls[i].filename))
    decreases |ls|
  {
    var n := |ls| - 1;
    var init := ls[..n];
    var prev := BuildMetadata(dir, init);
    assert BuildMetadata(dir, ls).identMap == Put(prev.identMap, Key(ls[n]), StoredPath(dir, ls[n].filename));
    PutGet(prev.identMap, Key(ls[n]), StoredPath(dir, ls[n].filename), Key(ls[i]));
    if i < n {
      assert init[i] == ls[i];
      assert forall j :: i < j < |init| ==> init[j] == ls[j];
      MetadataLastWins(dir, init, i);
    }
  }

  /** A key no record has is absent from the map. */
  lemma {:induction false} MetadataNoStrayKeys(dir: string, ls: seq<License>, k: string)
    requires forall i :: 0 <= i < |ls| ==> Key(ls[i]) != k
    ensures Get(BuildMetadata(dir, ls).identMap, k) == None
    decreases |ls|
  {
    if |ls| > 0 {
      var n := |ls| - 1;
      var init := ls[..n];
      assert forall i :: 0 <= i < |init| ==> init[i] == ls[i];
      MetadataNoStrayKeys(dir, init, k);
      PutGet(BuildMetadata(dir, init).identMap, Key(ls[n]), StoredPath(dir, ls[n].filename), k);
    }
  }

  /** No two records share a key. */
  predicate DistinctKeys(ls: seq<License>) {
    forall i, j :: 0 <= i < j < |ls| ==> Key(ls[i]) != Key(ls[j])
  }

  /** The entries a record list contributes, one per record, in input order. */
  function Entries(dir: string, ls: seq<License>): (r: seq<(string, string)>)
    ensures |r| == |ls|
  {
    seq(|ls|, i requires 0 <= i < |ls| => (Key(ls[i]), StoredPath(dir, ls[i].filename)))
  }

  lemma EntriesSnoc(dir: string, ls: seq<License>)
    requires |ls| > 0
    ensures Entries(dir, ls) ==
      Entries(dir, ls[..|ls| - 1]) + [(Key(ls[|ls| - 1]), StoredPath(dir, ls[|ls| - 1].filename))]
  {
    var n := |ls| - 1;
    assert forall i :: 0 <= i < n ==> Entries(dir, ls[..n])[i] == Entries(dir, ls)[i];
  }

  /** With distinct keys every record adds exactly one entry, in input order. */
  lemma {:induction false} MetadataInOrder(dir: string, ls: seq<License>)
    requires DistinctKeys(ls)
    ensures BuildMetadata(dir, ls).identMap == Entries(dir, ls)
    decreases |ls|
  {
    if |ls| > 0 {
      var n := |ls| - 1;
      var init := ls[..n];
      assert DistinctKeys(init) by {
        assert forall i :: 0 <= i < |init| ==> init[i] == ls[i];
      }
      MetadataInOrder(dir, init);
      var prev := BuildMetadata(dir, init).identMap;
      var e := (Key(ls[n]), StoredPath(dir, ls[n].filename));
      assert BuildMetadata(dir, ls).identMap == Put(prev, e.0, e.1);
      assert IndexOf(prev, e.0).None? by {
        forall j | 0 <= j < |prev| ensures prev[j].0 != e.0 {
          assert prev[j].0 == Key(ls[j]);
        }
      }
      EntriesSnoc(dir, ls);
    }
  }

  /** The error the lookup raises when no metadata file was stored: the empty dict read
      in its place has no `ident_map` key. */
  datatype LookupError = KeyError

  /** The match `ident_to_license_filepath` applies: a key starting with an all-decimal
      identifier, otherwise a key ending with it. */
  predicate KeyMatches(key: string, ident: string) {
    if IsDecimal(ident) then ident <= key else EndsWith(key, ident)
  }

  /** The first entry whose key matches, in the dict's order. */
  function FirstMatch(m: seq<(string, string)>, ident: string): (r: Option<nat>)
    ensures r.Some? ==> r.value < |m| && KeyMatches(m[r.value].0, ident)
    ensures r.Some? ==> forall j :: 0 <= j < r.value ==> !KeyMatches(m[j].0, ident)
    ensures r.None? ==> forall j :: 0 <= j < |m| ==> !KeyMatches(m[j].0, ident)
  {
    if |m| == 0 then None
    else if KeyMatches(m[0].0, ident) then Some(0)
    else
      match FirstMatch(m[1..], ident)
      case None => None
      case Some(i) => Some(i + 1)
  }

  /** `ident_to_license_filepath` as written, with the stored metadata (`None` when the
      metadata file does not exist). */
  function IdentToPath(meta: Option<Metadata>, ident: string): (r: Result<Option<string>, LookupError>)
    ensures r.Err? <==> meta.None?
    ensures r.Ok? && r.value.None? ==>
      forall j :: 0 <= j < |meta.value.identMap| ==> !KeyMatches(meta.value.identMap[j].0, ident)
    ensures r.Ok? && r.value.Some? ==> exists i :: (0 <= i < |meta.value.identMap| &&
      KeyMatches(meta.value.identMap[i].0, ident) && r.value.value == meta.value.identMap[i].1 &&
      forall j :: 0 <= j < i ==> !KeyMatches(meta.value.identMap[j].0, ident))
  {
    match meta
    case None => Err(KeyError)
    case Some(md) =>
      match FirstMatch(md.identMap, ident)
      case None => Ok(None)
      case Some(i) => Ok(Some(md.identMap[i].1))
  }

  /** An empty identifier is not decimal, and every key ends with it: the lookup takes the
      first license there is. */
  lemma EmptyIdentTakesFirst(md: Metadata)
    requires |md.identMap| > 0
    ensures IdentToPath(Some(md), "") == Ok(Some(md.identMap[0].1))
  {
    assert EndsWith(md.identMap[0].0, "");
  }

  /** The match meant by "either the numerical index or the SPDX identifier": the index
      up to the separator, or the SPDX identifier after it. */
  predicate KeyNames(key: string, ident: string) {
    if IsDecimal(ident) then ident + "==" <= key else EndsWith(key, "==" + ident)
  }

  /** Neither lookup folds case: a lower-case SPDX identifier misses an upper-case key. */
  lemma LookupIsCaseSensitive()
    ensures IdentToPath(Some(Metadata([("3==MIT", "licenses/mit.md")], [])), "mit") == Ok(None)
    ensures IdentToPathExact(Some(Metadata([("3==MIT", "licenses/mit.md")], [])), "mit") == Ok(None)
  {
    var key := "3==MIT";
    assert !IsDecimal("mit") by {
      assert "mit"[0] == 'm';
    }
    assert key[|key| - 3..] == "MIT" != "mit";
    assert key[|key| - 5..] == "==MIT" != "==mit";
  }

  /** The lookup with the intended match. */
  function IdentToPathExact(meta: Option<Metadata>, ident: string): (r: Result<Option<string>, LookupError>)
    ensures r.Err? <==> meta.None?
    ensures r.Ok? && r.value.None? ==>
      forall j :: 0 <= j < |meta.value.identMap| ==> !KeyNames(meta.value.identMap[j].0, ident)
    ensures r.Ok? && r.value.Some? ==>
      exists i: nat :: (FirstNamedAt(meta.value.identMap, ident, i) && r.value.value == meta.value.identMap[i].1)
  {
    match meta
    case None => Err(KeyError)
    case Some(md) =>
      match FirstNamed(md.identMap, ident)
      case None => Ok(None)
      case Some(i) =>
        assert FirstNamedAt(md.identMap, ident, i);
        Ok(Some(md.identMap[i].1))
  }

  /** Entry `i` is the first whose key names the identifier. */
  predicate FirstNamedAt(m: seq<(string, string)>, ident: string, i: nat) {
    && i < |m|
    && KeyNames(m[i].0, ident)
    && forall j :: 0 <= j < i ==> !KeyNames(m[j].0, ident)
  }

  /** The first entry whose key names the identifier. */
  function FirstNamed(m: seq<(string, string)>, ident: string): (r: Option<nat>)
    ensures r.Some? ==> r.value < |m| && KeyNames(m[r.value].0, ident)
    ensures r.Some? ==> forall j :: 0 <= j < r.value ==> !KeyNames(m[j].0, ident)
    ensures r.None? ==> forall j :: 0 <= j < |m| ==> !KeyNames(m[j].0, ident)
  {
    if |m| == 0 then None
    else if KeyNames(m[0].0, ident) then Some(0)
    else
      match FirstNamed(m[1..], ident)
      case None => None
      case Some(i) => Some(i + 1)
  }

  /** For a key whose index holds no `=`, a decimal identifier names it exactly when it
      is the index. */
  lemma KeyNamesIndex(idx: string, spdx: string, ident: string)
    requires IsDecimal(ident) && '=' !in idx
    ensures KeyNames(idx + "==" + spdx, ident) <==> idx == ident
  {
    var key := idx + "==" + spdx;
    var p := ident + "==";
    if |ident| < |idx| {
      assert key[|ident|] != p[|ident|];
    } else if |ident| > |idx| {
      assert p[|idx|] == ident[|idx|];
      assert key[|idx|] != p[|idx|];
    } else if idx != ident {
      assert key[..|idx|] != p[..|idx|];
    } else {
      assert key == p + spdx;
    }
  }

  /** For a key with no `=` outside its separator, a non-decimal identifier names it
      exactly when it is the SPDX identifier. */
  lemma KeyNamesSpdx(idx: string, spdx: string, ident: string)
    requires !IsDecimal(ident) && '=' !in idx && '=' !in spdx
    ensures KeyNames(idx + "==" + spdx, ident) <==> spdx == ident
  {
    var key := idx + "==" + spdx;
    var q := "==" + ident;
    if |q| <= |key| {
      var t := key[|key| - |q|..];
      if |ident| > |spdx| {
        assert t[0] == idx[|idx| + |spdx| - |ident|];
        assert t[0] != q[0];
      } else if |ident| < |spdx| {
        assert t[1] == spdx[|spdx| - |ident| - 1];
        assert t[1] != q[1];
      } else {
        assert key == idx + ("==" + spdx);
        assert t == "==" + spdx;
        assert t[2..] == spdx && q[2..] == ident;
      }
    } else {
      assert |spdx| + 2 <= |key|;
    }
  }

  /** Records as the fetcher numbers them: decimal, distinct index numbers and SPDX
      identifiers without `=`. */
  predicate WellNumbered(ls: seq<License>) {
    && (forall i :: 0 <= i < |ls| ==> IsDecimal(ls[i].indexId) && '=' !in ls[i].spdxId)
    && (forall i, j :: 0 <= i < j < |ls| ==> ls[i].indexId != ls[j].indexId)
  }

  /** Well-numbered records have distinct keys. */
  lemma WellNumberedDistinct(ls: seq<License>)
    requires WellNumbered(ls)
    ensures DistinctKeys(ls)
  {
    forall i, j | 0 <= i < j < |ls| ensures Key(ls[i]) != Key(ls[j]) {
      KeyNamesIndex(ls[i].indexId, ls[i].spdxId, ls[j].indexId);
      assert ls[j].indexId + "==" <= Key(ls[j]);
    }
  }

  /** The first record with the SPDX identifier `s`. */
  function FirstWithSpdx(ls: seq<License>, s: string): (r: Option<nat>)
    ensures r.Some? ==> r.value < |ls| && ls[r.value].spdxId == s
    ensures r.Some? ==> forall j :: 0 <= j < r.value ==> ls[j].spdxId != s
    ensures r.None? ==> forall j :: 0 <= j < |ls| ==> ls[j].spdxId != s
  {
    if |ls| == 0 then None
    else if ls[0].spdxId == s then Some(0)
    else
      match FirstWithSpdx(ls[1..], s)
      case None => None
      case Some(i) => Some(i + 1)
  }

  /** Digits never include `=`. */
  lemma DecimalHasNoEquals(s: string)
    requires IsDecimal(s)
    ensures '=' !in s
  {
  }

  /** The intended lookup over the entries of well-numbered records: the path of the first
      entry whose key names the identifier. */
  lemma ExactLookupEntries(dir: string, ls: seq<License>, ident: string)
    requires WellNumbered(ls)
    ensures IdentToPathExact(Some(BuildMetadata(dir, ls)), ident) ==
      Ok(match FirstNamed(Entries(dir, ls), ident)
         case None => None
         case Some(i) => Some(StoredPath(dir, ls[i].filename)))
  {
    WellNumberedDistinct(ls);
    MetadataInOrder(dir, ls);
  }

  /** A search for the first key naming a non-decimal identifier is a search for the
      first record with that SPDX identifier. */
  lemma FirstNamedIsFirstWithSpdx(dir: string, ls: seq<License>, ident: string)
    requires WellNumbered(ls) && !IsDecimal(ident)
    ensures FirstNamed(Entries(dir, ls), ident) == FirstWithSpdx(ls, ident)
  {
    var m := Entries(dir, ls);
    forall j | 0 <= j < |ls| ensures KeyNames(m[j].0, ident) <==> ls[j].spdxId == ident {
      DecimalHasNoEquals(ls[j].indexId);
      KeyNamesSpdx(ls[j].indexId, ls[j].spdxId, ident);
    }
    var f := FirstNamed(m, ident);
    var g := FirstWithSpdx(ls, ident);
    if f.Some? {
      assert ls[f.value].spdxId == ident;
      assert g.Some? && g.value <= f.value;
      assert KeyNames(m[g.value].0, ident);
    }
  }

  /** Over stored metadata, the intended lookup of an SPDX identifier gives the path of
      the first license with that identifier, or nothing when no license has it. */
  lemma ExactLookupBySpdx(dir: string, ls: seq<License>, ident: string)
    requires WellNumbered(ls) && !IsDecimal(ident)
    ensures IdentToPathExact(Some(BuildMetadata(dir, ls)), ident) ==
      Ok(match FirstWithSpdx(ls, ident)
         case None => None
         case Some(i) => Some(StoredPath(dir, ls[i].filename)))
  {
    ExactLookupEntries(dir, ls, ident);
    FirstNamedIsFirstWithSpdx(dir, ls, ident);
  }

  /** Among well-numbered records, the key naming a record's index number is that
      record's. */
  lemma FirstNamedIndex(dir: string, ls: seq<License>, i: nat)
    requires WellNumbered(ls) && i < |ls|
    ensures FirstNamed(Entries(dir, ls), ls[i].indexId) == Some(i)
  {
    var m := Entries(dir, ls);
    var ident := ls[i].indexId;
    forall j | 0 <= j < |ls| ensures KeyNames(m[j].0, ident) <==> j == i {
      DecimalHasNoEquals(ls[j].indexId);
      KeyNamesIndex(ls[j].indexId, ls[j].spdxId, ident);
    }
    assert KeyNames(m[i].0, ident);
    var f := FirstNamed(m, ident);
    assert f.Some? && f.value <= i;
    assert KeyNames(m[f.value].0, ident);
  }

  /** Over stored metadata, the intended lookup of an index number gives the path of the
      license with that number. */
  lemma ExactLookupByIndex(dir: string, ls: seq<License>, i: nat)
    requires WellNumbered(ls) && i < |ls|
    ensures IdentToPathExact(Some(BuildMetadata(dir, ls)), ls[i].indexId) ==
      Ok(Some(StoredPath(dir, ls[i].filename)))
  {
    ExactLookupEntries(dir, ls, ls[i].indexId);
    FirstNamedIndex(dir, ls, i);
  }

  /** Two licenses in the order the fetcher lists them: the Affero licence sorts first. */
  const GplPair: seq<License> := [
    License("1", "AGPL-3.0", "GNU Affero General Public License v3.0", "agpl-3.0.json"),
    License("2", "GPL-3.0", "GNU General Public License v3.0", "gpl-3.0.json")
  ]

  lemma GplPairWellNumbered()
    ensures WellNumbered(GplPair)
  {
    assert IsDecimal("1") && IsDecimal("2");
  }

  /** As written, `GPL-3.0` is a suffix of the Affero key, which comes first, so the lookup
      returns the Affero licence; the intended match returns the GPL. */
  lemma SuffixMatchTakesAffero(dir: string)
    ensures IdentToPath(Some(BuildMetadata(dir, GplPair)), "GPL-3.0") ==
      Ok(Some(StoredPath(dir, "agpl-3.0.json")))
    ensures IdentToPathExact(Some(BuildMetadata(dir, GplPair)), "GPL-3.0") ==
      Ok(Some(StoredPath(dir, "gpl-3.0.json")))
  {
    GplPairWellNumbered();
    WellNumberedDistinct(GplPair);
    MetadataInOrder(dir, GplPair);
    var m := BuildMetadata(dir, GplPair).identMap;
    assert m[0].0 == "1==AGPL-3.0";
    assert !IsDecimal("GPL-3.0") by {
      assert !('0' <= "GPL-3.0"[0] <= '9');
    }
    assert EndsWith("1==AGPL-3.0", "GPL-3.0");
    assert FirstMatch(m, "GPL-3.0") == Some(0);
    ExactLookupBySpdx(dir, GplPair, "GPL-3.0");
    assert GplPair[0].spdxId != "GPL-3.0";
    assert FirstWithSpdx(GplPair, "GPL-3.0") == Some(1);
  }
}
