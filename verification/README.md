# devtools-cli license headers, in Dafny

A model of the license-header engine of `devtools-cli`, with the small helpers around it.

The engine renders a license notice once per comment family: `#` comments, and C-style `/* … */` blocks. It then decides, for each file, whether to skip, replace or insert that notice. The file is a value here: whether the path is a regular file, its name, and its text. An application returns the outcome (`Applied`, `Skipped`, `Unsupported`) together with the text the file holds afterwards.

The model also covers:
- the older license applier for Python files;
- the metadata index built when licenses are stored;
- the lookup of a stored license by index number or SPDX identifier;
- the storage-path and configuration-file helpers;
- the changelog section viewer and the entry loop of `log add`.

Modules, in dependency order:

| module | file | what it holds |
|---|---|---|
| `Wrappers` | `wrappers.dfy` | `Option` and `Result` |
| `PyStr` | `pystr.dfy` | the Python `str` behaviour the code relies on: `splitlines`, `"\n".join`, `strip`/`lstrip`, `isspace`, `isdecimal`, `endswith` |
| `Symbols` | `symbols.dfy` | comment symbols: a triple, plus an optional alias triple that a flag selects |
| `Registry` | `registry.dfy` | the suffix lists of both families, `Path.suffix`, and suffix routing |
| `Template` | `template.dfy` | the header configuration, the eight template lines, and `str.format` substitution |
| `Render` | `render.dfy` | rendering one header, and the constructor that renders one per family |
| `Detect` | `detect.dfy` | the scans for an existing header block, as written and corrected |
| `Application` | `apply.dfy` | routing, the shebang, the skip/replace/insert decision; the corrected application and the one as written |
| `ApplyLaws` | `apply_laws.dfy` | laws of the corrected application: shebang preserved, empty file, idempotence |
| `Findings` | `findings.dfy` | concrete files on which the code as written departs from its evident intent |
| `LicenseHelpers` | `helpers.dfy` | `apply_license`, the metadata index, and the identifier lookup |
| `Utils` | `utils.dfy` | storage paths, the upward search for the configuration file, the model-type check, reading and writing configuration sections |
| `Changelog` | `changelog.dfy` | `log view` section search and slicing; the `log add` decisions |

Each operation has a partner. `Render.HeaderLines` is the reference for rendering. `Detect.IsStarBlock` is the reference for the block-comment scan. A second application checks the first. `Utils.NearestConfig` is the reference for the config-file search.

Where the code and its own documentation or tests disagree, the model follows the code:
- The docstring of `LicenseHeader.apply` (devtools_cli/commands/license/header.py:130-134) promises that an identical header is left alone and any other one replaced. The tests of `apply` (tests/test_license/test_license_header.py:68, 78, 81, 119) expect it to return `'applied'`, `'skipped'` or `'unsupported'`. The method as written returns nothing (header.py:139-148, 177). The model gives each run the `Outcome` those tests expect, so a path that is not a file is `Unsupported`.
- A comment-symbol record can carry an alias form (tests/test_license/test_comment_symbols.py:33-49). `apply` compares against the primary symbols only (header.py:156-169), and so does the model. See "Left out".
- `apply` checks that a line exists before looking for a shebang (header.py:153) but not before reading `content[0]` (header.py:156). Both the code as written and the guarded version are modelled; see "Findings".

## Model

| member | source | states |
|---|---|---|
| Symbols.MakeSymbols | tests/test_license/test_comment_symbols.py:16-49 | a mix of plain and paired roles is rejected with `InvalidSymbolSet`, for every mix; plain roles give a set without alias; pairs give the primary triple, and the alias triple once `use_alias` is set |
| Registry.DottedAgreesWithBare | devtools_cli/commands/license/classes.py:67-103 | the bare extension lists of the class module are the dotted lists of the header module with the dot removed, entry for entry |
| Registry.Suffix | devtools_cli/commands/license/header.py:144 | `Path.suffix`: empty unless a dot lies strictly inside the name; otherwise the text from the last dot, which ends the name |
| Registry.LastMatch | devtools_cli/commands/license/header.py:142-145 | the routing loop never breaks, so the last family listing the suffix wins; no family listing it gives none |
| Registry.RoutingInRenderOrder | devtools_cli/commands/license/header.py:113-145 | rendering star first and then hash makes a hash suffix route to hash, a suffix only the star list has route to star, and any other suffix route nowhere |
| Registry.PhpRoutesToHash | devtools_cli/commands/license/header.py:48-64 | `.php` is in both lists and routes to the hash family |
| Template.Indent | devtools_cli/commands/license/header.py:111 | the indent is exactly `spaces` space characters, and empty for a non-positive count |
| Template.FormatNewline | devtools_cli/commands/license/header.py:120-125 | substitution works line by line: no placeholder spans a newline |
| Template.FormatTemplate | devtools_cli/commands/license/classes.py:107-117 | substituting the eight template lines puts title, year and holder, and the SPDX identifier, in their places and leaves every other line as it is |
| Template.SubstitutedNoBreaks | devtools_cli/commands/license/header.py:79-88 | values without line breaks give template lines without line breaks |
| Render.RenderIsHeaderLines | devtools_cli/commands/license/classes.py:141-155 | the rendered text is the file text of ten lines: the opener; each template line after the continuation symbol and the indent, with its value in place; the closer |
| Render.RenderAll | devtools_cli/commands/license/header.py:109-126 | the constructor renders one header per family, star first and then hash, each from its own symbols |
| Render.HeaderLinesSplit | devtools_cli/commands/license/header.py:150 | a file that begins with a rendered header splits into the header's lines, then the lines of the rest |
| Render.StrippedHeader | devtools_cli/commands/license/header.py:176 | the stripped header text is its lines joined by newlines |
| Render.DefaultRendering | devtools_cli/commands/license/classes.py:44-49 | with the defaults of the class module's `HeaderConfig` the indent is three spaces and every placeholder becomes empty |
| Render.ConfigFileRendering | devtools_cli/commands/license/models.py:66-73 | with the defaults of the configuration file's header section, the title, copyright and SPDX lines carry `[title]`, `[year]`, `[holder]` and `[spdx_id]` after a three-space indent |
| Detect.LeadingRunExact | devtools_cli/commands/license/helpers.py:185-191 | the leading run of lines starting with a symbol is determined by where the first other line stands |
| Detect.CountStarting | devtools_cli/commands/license/header.py:158-161 | the hash scan as written counts every line that starts with the symbol, wherever it stands |
| Detect.CountVersusRun | devtools_cli/commands/license/header.py:158-161 | the count as written is never below the leading run, and equals it exactly when no later line starts with the symbol |
| Detect.StarBlockEnd | devtools_cli/commands/license/header.py:162-173 | the corrected block scan returns the end of a leading block comment (inside lines, then a closer) exactly when there is one |
| Detect.StarBlockUnique | devtools_cli/commands/license/header.py:164-166 | a block comment ends at its first closer, so at most one block leads the lines |
| Detect.StarCountAsWritten | devtools_cli/commands/license/header.py:162-173 | the block scan as written never counts past the end of the lines |
| Detect.StarCountAgrees | devtools_cli/commands/license/header.py:162-173 | where a block comment leads the lines, the scan as written ends where the block does |
| Application.Route | devtools_cli/commands/license/header.py:142-148 | the header a file name routes to lists the name's suffix, and no later header does; no route means no header lists it |
| Application.RouteRendered | devtools_cli/commands/license/header.py:142-148 | with the constructor's headers, the family a name routes to is decided by its suffix, the hash list taking precedence |
| Application.Locate | devtools_cli/commands/license/header.py:150-154 | the shebang is set apart exactly when the first line starts with `#!`, and keeps its newline; the content is the lines after it, or all the lines when there is none; no line holds a break |
| Application.BlockEnd | devtools_cli/commands/license/header.py:156-173 | the corrected block found starts with the opener; for `#` it is the leading run of `#` lines, and not empty when the first line starts with `#`; for blocks it is a block comment, and none when no block comment leads the lines |
| Application.Apply | devtools_cli/commands/license/header.py:139-184 | unsupported exactly for a non-file or an unrouted suffix; unchanged text unless applied; applied text is the shebang, the header, and the left-stripped rest after the block, with a final newline; a routed file is skipped, and left as it was, exactly when its first line starts with the opener and the block found equals the stripped header |
| Application.ApplyAsWritten | devtools_cli/commands/license/header.py:139-184 | the code as written fails exactly on a routed file with no line after the shebang; otherwise the same unsupported and no-change cases |
| Application.RenderedStripped | devtools_cli/commands/license/header.py:175-176 | the stripped text of each constructed header is its lines joined, which is what the skip test compares with |
| ApplyLaws.ShebangPreserved | devtools_cli/commands/license/header.py:152-182 | a first line starting with `#!` is the first line of the file after any application, unchanged |
| ApplyLaws.EmptyFileGetsHeader | devtools_cli/commands/license/header.py:181-182 | an empty routed file receives the header and an empty body |
| ApplyLaws.HashBlockOnHeader | devtools_cli/commands/license/header.py:158-161 | above a line not starting with `#`, the corrected scan finds exactly the header |
| ApplyLaws.StarMiddleLineInside | devtools_cli/commands/license/header.py:167-171 | a middle line of the block header is an inside line unless it would itself start with the closer |
| ApplyLaws.StarBlockOnHeader | devtools_cli/commands/license/header.py:162-173 | the corrected block scan finds exactly the rendered block header at the top of the lines |
| ApplyLaws.LocateWritten | devtools_cli/commands/license/header.py:150-182 | the written file splits again into the same shebang, the header's lines, then the body's lines |
| ApplyLaws.ApplyIdempotent | devtools_cli/commands/license/header.py:175-177 | a second application of a written file skips and leaves it as the first left it |
| Findings.ScansAgree | devtools_cli/commands/license/header.py:156-173 | where every `#` line lies in the leading run and a block comment leads the lines, the scans as written end where the corrected ones do |
| Findings.AsWrittenAgrees | devtools_cli/commands/license/header.py:150-184 | on such files, with a line after any shebang, the application as written equals the corrected one |
| Findings.HashRewriteDeletesCode | devtools_cli/commands/license/header.py:159-161 | a `#` file with the current header, a code line and a later comment: the corrected application skips; the one as written deletes the code line |
| Findings.StarScanSwallowsCode | devtools_cli/commands/license/header.py:163-173 | a script opening with a one-line directive comment: the corrected application keeps the whole file below the header; the one as written swallows code up to a later closer |
| Findings.EmptyFileCrashesAsWritten | devtools_cli/commands/license/header.py:156 | an empty file and a shebang-only file make the code as written raise `IndexError`; the corrected application writes the header |
| Findings.LiftedCommentDropped | devtools_cli/commands/license/header.py:156-182 | a comment below an empty first line is lifted under the header by one application and dropped by the next, and the code as written does the same on both files, so idempotence needs its precondition |
| LicenseHelpers.ApplyLicense | devtools_cli/commands/license/helpers.py:177-193 | no write exactly when the file's first lines are the license lines; otherwise the license lines, a newline, and the file's lines after its leading run of `#` lines |
| LicenseHelpers.ApplyLicenseIdempotent | devtools_cli/commands/license/helpers.py:178-192 | with single-line license lines, applying to the written text writes nothing |
| LicenseHelpers.ApplyLicenseDropsShebang | devtools_cli/commands/license/helpers.py:185-191 | a shebang line starts with `#`, so it goes with the leading comment lines |
| LicenseHelpers.PutGet | devtools_cli/commands/license/helpers.py:107 | a dict assignment keeps an existing key in its place and appends a new one, and the key then maps to the new value |
| LicenseHelpers.BuildMetadata | devtools_cli/commands/license/helpers.py:94-112 | one list entry per license in input order with its index, SPDX identifier and title; the keys stay unique |
| LicenseHelpers.MetadataLastWins | devtools_cli/commands/license/helpers.py:106-107 | each license's key maps to the stored path of the last license with that key |
| LicenseHelpers.MetadataNoStrayKeys | devtools_cli/commands/license/helpers.py:98-107 | every key of the index belongs to some license |
| LicenseHelpers.MetadataInOrder | devtools_cli/commands/license/helpers.py:98-112 | with distinct keys, the index holds each license's key and path in input order |
| LicenseHelpers.FirstMatch | devtools_cli/commands/license/helpers.py:136-139 | the first entry in dict order whose key matches, by prefix for a decimal identifier and by suffix otherwise |
| LicenseHelpers.IdentToPath | devtools_cli/commands/license/helpers.py:133-139 | no metadata raises `KeyError`; otherwise the path of the first matching key, or none when no key matches |
| LicenseHelpers.EmptyIdentTakesFirst | devtools_cli/commands/license/helpers.py:135-139 | an empty identifier matches every key, so the lookup returns the first license |
| LicenseHelpers.KeyNamesIndex | devtools_cli/commands/license/helpers.py:106 | a decimal identifier names a key by its index exactly when it is that index |
| LicenseHelpers.KeyNamesSpdx | devtools_cli/commands/license/helpers.py:106 | any other identifier names a key by its SPDX part exactly when it is that identifier |
| LicenseHelpers.IdentToPathExact | devtools_cli/commands/license/helpers.py:133-139 | the lookup with the intended match: no metadata raises `KeyError`; a found path is that of the first entry whose key names the identifier; none when no key names it |
| LicenseHelpers.LookupIsCaseSensitive | devtools_cli/commands/license/helpers.py:133-139 | both the lookup as written and the intended one compare case-sensitively: `mit` does not find the key `3==MIT` |
| LicenseHelpers.ExactLookupBySpdx | devtools_cli/commands/license/helpers.py:133-139 | the intended lookup of an SPDX identifier gives the path of the first license carrying it, or none |
| LicenseHelpers.ExactLookupByIndex | devtools_cli/commands/license/helpers.py:133-139 | the intended lookup of an index number gives that license's path |
| LicenseHelpers.SuffixMatchTakesAffero | devtools_cli/commands/license/helpers.py:137-138 | as written, `GPL-3.0` matches the earlier Affero key; the intended lookup gives the GPL file |
| Utils.DataStoragePath | devtools_cli/utils.py:81-90 | home, the data directory, the subdirectory if any, the file name if any; nothing is made without `create`; with it, exactly one directory creation when a subdirectory is named and one touch of the path when a file is named, and nothing else |
| Utils.DataStoragePathParent | devtools_cli/utils.py:81-90 | the file's path is its directory's path with the name added, whatever `create` says |
| Utils.NearestConfig | devtools_cli/utils.py:104-110 | the deepest directory from the working directory up, the root excluded, that holds the configuration file |
| Utils.FindLocalConfig | devtools_cli/utils.py:104-113 | returns the nearest configuration file without touching anything; with none, the file in the working directory, touched |
| Utils.RootConfigIgnored | devtools_cli/utils.py:105-106 | a configuration file at the filesystem root is never found |
| Utils.CheckModelType | devtools_cli/utils.py:43-61 | passes exactly for a model class under `"class"` and a model instance under `"object"`; `ValueError` exactly for any other kind; `TypeError` otherwise |
| Utils.ReadLocalConfig | devtools_cli/utils.py:136-146 | a non-model class is a `TypeError`; an empty file reads as `{}`; no section gives the whole object; a present section gives that member's fields, and a member that is not an object is an error; a missing section gives `{}`; a file holding a non-object is an error |
| Utils.ToDict | devtools_cli/models.py:38-44 | only the fields the class declares, with their values |
| Utils.WriteLocalConfig | devtools_cli/utils.py:166-176 | a non-instance is a `TypeError`; without a section the declared fields are written; with one the write succeeds exactly when the whole file reads |
| Utils.WriteThenReadSection | devtools_cli/utils.py:140-172 | reading back the section just written gives the model's fields |
| Utils.WriteKeepsOtherSections | devtools_cli/utils.py:169-172 | a sectioned write leaves every other section as it was |
| Utils.WriteWholeThenRead | devtools_cli/utils.py:167-176 | a write without a section reads back as the declared fields only |
| Changelog.Label | devtools_cli/commands/log/main.py:114-116 | the label starts with the marker; with a version, the rest is ` [`, the version itself, and `]`; without one, it is the marker alone |
| Changelog.FirstStarting | devtools_cli/commands/log/main.py:119-125 | the first line from a position on that starts with a prefix, or the end when none does |
| Changelog.SectionBody | devtools_cli/commands/log/main.py:121-131 | the body is the lines from two after the heading, in order, up to the end or the first later line starting with the marker, none of them starting with it; it is empty exactly when fewer than two lines follow the heading or one of the next two lines starts with the marker |
| Changelog.ViewSection | devtools_cli/commands/log/main.py:103-136 | an empty changelog ends the command; otherwise no section exactly when no line starts with the label; else the first such line, then exactly its body, with one empty line added when the body's last line is not empty |
| Changelog.ViewAsWrittenAgrees | devtools_cli/commands/log/main.py:131-135 | the code as written raises exactly when the section found has an empty body, and otherwise shows what the guarded view shows |
| Changelog.BareHeadingFails | devtools_cli/commands/log/main.py:131-134 | a changelog whose only line is a heading makes the view as written raise `IndexError` |
| Changelog.AddTarget | devtools_cli/commands/log/main.py:39-44 | an empty changelog forces a new section; a new section for a version already present is refused |
| Changelog.CollectEntries | devtools_cli/commands/log/main.py:48-53 | the entries are the answers before the first empty one, which is not recorded; running out of answers first is an error |
| Changelog.EntriesDetermined | devtools_cli/commands/log/main.py:48-53 | the recorded entries are determined by the answers |

## Left out

- File I/O: reading, writing, `mkdir`, `touch`, `rglob`, `exists` and `is_file`. A file is its name and text. The filesystem is a set of paths. Effects are returned as values.
- Application.Apply: the header texts are a parameter. `Application.Rendered` ties them to what the constructor renders.
- Alias-tolerant detection when applying: `LicenseHeader.apply` compares against the primary symbols only. Alias triples are modelled in `Symbols` and never consulted by `Apply`.
- The open-source/proprietary template variant: `HeaderTemplate` has one template.
- Template.Format: models `str.format` only for the four named placeholders. It does not model `{{`/`}}` escapes or the error on an unknown field, since the rendered text holds neither.
- Detect.StarCountAsWritten: states only the bound. Its agreement with the corrected scan is `Detect.StarCountAgrees`, and its departure is shown in `Findings`.
- Application.ApplyAsWritten: states the failure and the no-change cases. Its agreement with `Apply` is `Findings.AsWrittenAgrees`.
- ApplyLaws.ApplyIdempotent: requires single-line configuration values. It also requires an indent or a title not starting with `/` for block headers: otherwise a middle line reads as the closer. And it requires, for `#` headers, a body that does not start with `#` (`Findings.LiftedCommentDropped` shows why).
- LicenseHelpers.ApplyLicenseIdempotent: requires license lines without line breaks.
- LicenseHelpers.IdentToPathExact: compares identifiers case-sensitively, as the lookup in helpers.py:133-139 does. The `--id` help (devtools_cli/commands/license/main.py:41) calls the identifier case-insensitive, but neither the code nor the model folds case, so `mit` does not find the key `3==MIT` (`LicenseHelpers.LookupIsCaseSensitive`).
- PyStr.IsDecimal: accepts the ASCII digits only. Python's `isdecimal` also accepts other Unicode decimal digits.
- The network fetch of license files and the asyncio fan-out; the JSON encoding and decoding (orjson); pydantic validation; the Typer, rich and prompt user interface. The prompt is modelled as a sequence of answers.
- `get_global_data_dir` and the licenses directory: the storage directory is a parameter of the metadata model. Writing each license file is not modelled.
- Utils.DataStoragePath: a subdirectory containing `/` is kept as one path component.
- Utils.ReadLocalConfig: the empty string stands for both a missing and an empty section argument, as the code treats both alike. Pydantic's construction of the model from the fields is not modelled.
- Utils.WriteLocalConfig: writes the sectioned model's fields in full, as `model_dump` of the enclosing object does. The JSON text itself is not modelled.
- `Changelog`: `SECTION_LEVEL` is a parameter. `extract_version_from_label`, `read_existing_content`, `conform_changes`, `write_new_section` and `update_latest_section` belong to the changelog helpers and are not part of this model. `validate_unique_version` is a boolean parameter of `Changelog.AddTarget`. The view's printed version title is not modelled.
- Symbols.MakeSymbols: the tests expect `TypeError` for mixed arity. The model names that error `InvalidSymbolSet`.

## Findings

| source | as written | input that shows it | evidently intended | confidence | as-written member | corrected member |
|---|---|---|---|---|---|---|
| devtools_cli/commands/license/header.py:159-161 | the `#` scan counts every line starting with `#` in the whole file | a `.py` file holding the current header, then `import os`, then `# note` | the block is the leading run of `#` lines, so the file is skipped (`ApplyLaws.ApplyIdempotent`) | high; not executed | Findings.HashRewriteDeletesCode | Application.Apply |
| devtools_cli/commands/license/header.py:162-173 | the block scan passes over code lines without stopping and ends only at a closer | a `.js` file starting `/* eslint-disable */`, `import x;`, `/**`, ` * doc`, ` */`, `f();` | the block ends at its first closer, and no header is found when code comes first (`Detect.StarBlockEnd`) | high; not executed | Findings.StarScanSwallowsCode | Application.Apply |
| devtools_cli/commands/license/header.py:156 | `content[0]` is read without checking that a line remains | an empty `.py` file, or one holding only `#!/bin/sh` | an empty file gets the header (`ApplyLaws.EmptyFileGetsHeader`) | high; not executed | Findings.EmptyFileCrashesAsWritten | Application.Apply |
| devtools_cli/commands/license/helpers.py:137-138 | a non-decimal identifier matches any key that ends with it | licenses `1==AGPL-3.0` and `2==GPL-3.0`, identifier `GPL-3.0` | the identifier names the SPDX part after `==` (`LicenseHelpers.ExactLookupBySpdx`) | medium; not executed | LicenseHelpers.SuffixMatchTakesAffero | LicenseHelpers.IdentToPathExact |
| devtools_cli/commands/log/main.py:134 | `contents[-1]` is read without checking that the section has a body | a changelog holding only `## [1.0.0]`, viewed with marker `##` | an empty section prints no lines (`Changelog.BareHeadingFails`) | medium; not executed | Changelog.BareHeadingFails | Changelog.ViewSection |
