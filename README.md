# dockerfile-benchmarker: the rule-evaluation engine in Dafny

This project models the core of `dockerfile-benchmarker`, a linter that checks
parsed Dockerfiles against recommendations 4.1, 4.2, 4.3, 4.6, 4.7, 4.9 and
4.10 of the CIS Docker Benchmark. The linter reports, per rule, the files (or
`"file: detail"` strings) that break it.

Module by module:

- `Wrappers` (wrappers.dfy): `Option`, used for the three optional configuration sets.
- `GoStrings` (gostrings.dfy): the parts of Go's `strings` package the core uses, on ASCII:
  - `ToLower`, `Split` with a one-character separator, `Join`, `TrimSpace`.
- `Utils` (utils.dfy): `ArrayToMap` and `MapToArray`, plus the vocabulary for unordered results:
  - `ListsEachOnce(list, s)`: every element of `s` occurs exactly once in `list`, and nothing else occurs.
  - `MapOrder`: stands for Go's unspecified `range` order over a map.
  - `Filter` and `UnionOver`: what a loop over that order collects.
- `Benchmark` (benchmark.dfy): the rule-name constants, `RuleViolation`, and the `ViolationReport` class.
  - The report is an append-only list of (rule, violations) entries.
- `Dockerfile` (dockerfile.dfy): the instruction model.
  - `DockerInstruction` holds a directive, flags and content tokens.
  - The `Dockerfile` class holds an append-only instruction list.
  - Its methods are `AddNode`, `String`, `LookupInstruction` and `LookupInstructionAndContent`.
  - `Hits` is the index list that `LookupInstructionAndContent` returns. It is proved in range, non-decreasing, and counting each index once per matching token.
- `Benchmarker` (benchmarker.dfy): the `DockerBenchmarker` class.
  - It holds the map from file name to `Dockerfile`, the three configuration sets and the report.
  - Its operations are the setters, the registration part of `ParseDockerfile`, and the seven checks with their helpers `diffArray` and `createViolation`.
  - `RunBenchmark` is also here.
  - Each check is proved against a set-valued specification, e.g. `NonRootViolations` or `PackageViolations`.
  - `RunBenchmark` is proved to append exactly the entries of the enabled checks, in source order. Each entry carries its check's specification.
  - CIS 4.7 is proved unchanged when an instruction that is not a RUN is inserted or moved (`UpdateOnlyCountMove`).
- `Cli` (cli.dfy): `parseList`, which splits a comma-separated flag value.

Go's map iteration order is random. Every loop over a map is therefore a loop over an arbitrary enumeration, which `MapOrder` returns. Every list built that way is specified without positions: each element occurs exactly once (`ListsEachOnce`), or each file occurs as often as a multiset count says (CIS 4.7).

Where the code differs from what one might expect, the model follows the code:

- Content tokens are never lower-cased. `LookupInstructionAndContent` lower-cases only the directive and the pattern.
- Directives are stored as the parser delivered them, without lower-casing.
- CIS 4.7 lists a file once for every package-manager pair that triggers, so a file can occur up to three times.
- A setter given an empty list keeps the previous configuration; it does not disable the rule.
- A pattern that does not compile yields an empty index list, and no diagnostic.

## Model

| member | source | states |
|---|---|---|
| Benchmark.RuleNamesDistinct | pkg/benchmark/benchmark.go:3-11 | the seven rule names are pairwise distinct |
| Benchmark.NewBenchmarkViolation | pkg/benchmark/benchmark.go:22-27 | the entry carries exactly the given rule and violation list |
| Benchmark.ViolationReport.constructor | pkg/benchmark/benchmark.go:29-33 | a new report has no entries |
| Benchmark.ViolationReport.AddViolation | pkg/benchmark/benchmark.go:35-39 | the report grows by exactly one entry (rule, files) at the end; earlier entries are unchanged |
| GoStrings.ToLower | pkg/dockerfile/types.go:82 | same length; each ASCII capital becomes its small letter, every other character is kept |
| GoStrings.Split | main.go:127 | one piece more than there are separators, and no piece contains the separator; `JoinSplit` shows the pieces are the input's substrings between separators |
| GoStrings.Join | pkg/dockerfile/types.go:68 | empty for no parts; otherwise as long as the parts together plus one separator between each two neighbours; `Join` undoes `Split` (`JoinSplit`), and `Split` undoes `Join` for a non-empty list of separator-free parts (`SplitJoin`) |
| GoStrings.JoinCons | pkg/dockerfile/types.go:68 | a character put in front of the first part ends up in front of the joined string |
| GoStrings.JoinSplit | main.go:127 | joining the pieces of a split with the separator gives back the input, so the pieces are exactly the text between separators |
| GoStrings.SplitAtFirst | benchmarker/benchmark.go:143 | splitting `a + sep + rest`, with no separator in `a`, gives `a` followed by the pieces of `rest` |
| GoStrings.SplitNoSep | benchmarker/benchmark.go:143 | a string without the separator splits into itself alone |
| GoStrings.SplitJoin | main.go:127 | splitting the join of a non-empty list of separator-free parts gives the parts back; no parts join to "", which splits into [""] |
| GoStrings.CountCharJoin | pkg/dockerfile/types.go:68-73 | joining parts none of which (nor the separator) holds a character gives a string without it |
| GoStrings.TrimSpace | main.go:131 | the result is the input less a white-space prefix and suffix; it neither starts nor ends with white space; it is empty exactly when the input is all white space |
| Dockerfile.Dockerfile.constructor | pkg/dockerfile/types.go:42-47 | the new Dockerfile has the given file name and no instructions |
| Dockerfile.Dockerfile.AddNode | pkg/dockerfile/types.go:49-58 | exactly one instruction is appended: the node's value as directive (not lower-cased), its flags, and the values of its `Next` chain in order; earlier instructions are unchanged |
| Dockerfile.Dockerfile.String | pkg/dockerfile/types.go:60-79 | the header line `Dockerfile: <file>`, then one line per instruction: the directive, a space and the space-joined flags if any, a space and the space-joined content if any, and a newline |
| Dockerfile.LineAppended | pkg/dockerfile/types.go:65-75 | the piecewise appends of one loop iteration add exactly one `Line` |
| Dockerfile.LinesCount | pkg/dockerfile/types.go:64-76 | when no token holds a newline, the body has exactly one newline per instruction and ends with a newline |
| Dockerfile.Dockerfile.LookupInstruction | pkg/dockerfile/types.go:81-91 | true iff some stored directive equals the lower-cased argument |
| Dockerfile.Dockerfile.LookupInstructionAndContent | pkg/dockerfile/types.go:93-115 | empty when the lower-cased pattern does not compile; otherwise the index list `Hits`; an index occurs iff its instruction has the lower-cased directive and a content token matching the lower-cased pattern; empty iff no instruction qualifies |
| Dockerfile.AppendMatches | pkg/dockerfile/types.go:106-110 | appends the instruction's index once per content token the pattern matches |
| Dockerfile.MatchCount | pkg/dockerfile/types.go:106-110 | at most one count per token; positive iff some token matches |
| Dockerfile.HitsBounds | pkg/dockerfile/types.go:104-112 | every index is in range and names an instruction with the directive; the indices are non-decreasing |
| Dockerfile.HitsCount | pkg/dockerfile/types.go:104-112 | index `x` occurs exactly as often as instruction `x` has matching content tokens, and only under the directive |
| Dockerfile.HitsMembers | pkg/dockerfile/types.go:104-112 | an index is listed iff it is in the match set of the lower-cased directive and pattern |
| Dockerfile.HitsProperties | pkg/dockerfile/types.go:93-115 | the count, membership and emptiness facts about the index list together |
| Utils.ArrayToMap | utils/utils.go:3-11 | the keys are exactly the elements of the array, all mapped to true (none for an empty array) |
| Utils.MapToArray | utils/utils.go:13-21 | every key occurs exactly once, nothing else occurs, and the length is the number of keys (empty for an empty map) |
| Utils.ArrayMapRoundTrip | utils/utils.go:3-21 | `MapToArray(ArrayToMap(arr))` has the elements of `arr` and no duplicates |
| Utils.MapOrder | utils/utils.go:16 | an enumeration of a map's keys, each exactly once, in unspecified order |
| Benchmarker.CreateViolation | benchmarker/benchmark.go:362-364 | the result is the file, then `": "`, then the detail |
| Benchmarker.CreateViolationInjective | benchmarker/benchmark.go:362-364 | for file names without a colon, equal violation strings come from equal (file, detail) pairs |
| Benchmarker.NoShorterFile | benchmarker/benchmark.go:362-364 | a colon-free file name is never longer than any other file name producing the same violation string |
| Benchmarker.EnvLabelDistinct | benchmarker/benchmark.go:316-328 | an ENV detail never equals a LABEL detail, whatever the two patterns |
| Benchmarker.SecretKindsApart | benchmarker/benchmark.go:316-328 | an ENV hit and a LABEL hit give different violation strings within one file, and across files whose names hold no colon (a colon in a file name can make them coincide) |
| Benchmarker.UserIgnoresThirdPart | benchmarker/benchmark.go:142-147 | in the `user:group` form only the first two colon-separated parts decide, whatever follows a second colon |
| Benchmarker.UserGroup | benchmarker/benchmark.go:142-147 | in the one-colon `user:group` form the token passes iff neither part is `root` nor `0` |
| Benchmarker.TriggeredCounts | benchmarker/benchmark.go:246-271 | one file's CIS 4.7 entries name only that file, once per triggering pair |
| Benchmarker.UpdateOnlyListedCounts | benchmarker/benchmark.go:245-273 | over distinct files, the CIS 4.7 list holds each registered file exactly as often as its pairs trigger |
| Benchmarker.UntrustedUnion | benchmarker/benchmark.go:175-184 | collecting the untrusted images file by file gives exactly `TrustedImageViolations` |
| Benchmarker.PackagesUnion | benchmarker/benchmark.go:198-221 | collecting disallowed installs file by file gives exactly `PackageViolations` |
| Benchmarker.SecretsUnion | benchmarker/benchmark.go:314-330 | collecting ENV and LABEL secret hits file by file gives exactly `SecretViolations` |
| Benchmarker.Converted | benchmarker/benchmark.go:95-97 | one instruction per node, in node order, each built as `AddNode` builds it |
| Benchmarker.ConvertedAppend | benchmarker/benchmark.go:95-97 | converting two node lists one after the other equals converting their concatenation |
| Benchmarker.RegisterTwice | benchmarker/benchmark.go:91-97 | registering nodes `a` and then `b` for a file equals registering `a + b` once |
| Benchmarker.DiffArray | benchmarker/benchmark.go:335-360 | the first result lists the distinct elements of `arr1` not in `arr2`, each once; the second, those of `arr2` not in `arr1` |
| Benchmarker.KeysMissing | benchmarker/benchmark.go:347-357 | lists each key of one map that is not a key of the other, exactly once |
| Benchmarker.DiffNonEmpty | benchmarker/benchmark.go:250-251 | the difference list is non-empty iff the update indices are not all among the install indices |
| Benchmarker.RuleOf | benchmarker/benchmark.go:108-130 | every check reports under one of the seven rule names |
| Benchmarker.ExpectedChecks | benchmarker/benchmark.go:108-130 | a run reports 4 checks plus one per configured set |
| Benchmarker.ExpectedChecksMembers | benchmarker/benchmark.go:108-130 | the reported checks come in the order 4.1, 4.2, 4.3, 4.6, 4.7, 4.9, 4.10 (each at most once), and a check is reported iff it is enabled |
| Benchmarker.RunComposition | benchmarker/benchmark.go:108-130 | the seven checks' effects compose: the old entries are kept and the new ones match the expected checks one by one |
| Benchmarker.FirstChecks | benchmarker/benchmark.go:110-117 | 4.1 and the configured 4.2 and 4.3 entries match their checks |
| Benchmarker.LastChecks | benchmarker/benchmark.go:119-129 | 4.6, 4.7, 4.9 and the configured 4.10 entries extend a matching prefix |
| Benchmarker.MiddleChecks | benchmarker/benchmark.go:119-126 | the 4.6, 4.7 and 4.9 entries extend a matching prefix |
| Benchmarker.Grow | benchmarker/benchmark.go:108-130 | one more check that appends its entry keeps the report matching |
| Benchmarker.GrowOptional | benchmarker/benchmark.go:113-117 | a configurable check appends its matching entry when configured and nothing otherwise |
| Benchmarker.Optional | benchmarker/benchmark.go:169-171 | a configurable check is listed exactly when it is switched on |
| Benchmarker.RankedExtend | benchmarker/benchmark.go:108-130 | appending at most one check ranked above all earlier ones keeps the checks in RunBenchmark's order |
| Benchmarker.DockerBenchmarker.constructor | benchmarker/benchmark.go:26-35 | no files, a fresh empty report, and all three configuration sets absent |
| Benchmarker.DockerBenchmarker.SetTrustedBaseImages | benchmarker/benchmark.go:37-47 | an empty list leaves the set as it was; otherwise the set becomes exactly the listed images |
| Benchmarker.DockerBenchmarker.SetDisallowedPackages | benchmarker/benchmark.go:49-59 | an empty list leaves the set as it was; otherwise the set becomes exactly the listed packages |
| Benchmarker.DockerBenchmarker.SetSecretPattern | benchmarker/benchmark.go:61-71 | an empty list leaves the set as it was; otherwise the set becomes exactly the listed patterns |
| Benchmarker.DockerBenchmarker.ParseDockerfile | benchmarker/benchmark.go:91-97 | an empty Dockerfile is created on first reference; the nodes' instructions are appended in order; other files are untouched |
| Benchmarker.AddNodes | benchmarker/benchmark.go:95-97 | the Dockerfile gains one instruction per node, in order |
| Benchmarker.DockerBenchmarker.GetViolationReport | benchmarker/benchmark.go:103-105 | returns the report's entries |
| Benchmarker.DockerBenchmarker.IsTrustedBaseImage | benchmarker/benchmark.go:278-289 | true for every image while no trusted set is configured; otherwise true iff the image is in the set |
| Benchmarker.DockerBenchmarker.RunBenchmark | benchmarker/benchmark.go:108-130 | earlier entries are kept (the report is never cleared); the new entries are exactly the enabled checks in order, each under its rule and listing what its specification says |
| Benchmarker.DockerBenchmarker.CheckNonRootUser | benchmarker/benchmark.go:133-164 | appends one CIS 4.1 entry listing, once each, exactly the files without a USER instruction that creates a non-root user |
| Benchmarker.DockerBenchmarker.FilesWithoutNonRootUser | benchmarker/benchmark.go:134-161 | each file without a non-root USER occurs once, and no other file occurs |
| Benchmarker.NonRootUserFound | benchmarker/benchmark.go:137-156 | true iff some USER instruction's lower-cased first token names neither `root` nor `0` (in both `user:group` parts when a colon is present) |
| Benchmarker.DockerBenchmarker.CheckTrustedBaseImages | benchmarker/benchmark.go:167-187 | no entry without a trusted set; otherwise one CIS 4.2 entry listing each `"file: image"` for an untrusted base image exactly once |
| Benchmarker.DockerBenchmarker.UntrustedImages | benchmarker/benchmark.go:173-184 | the violation map's keys are exactly `TrustedImageViolations` |
| Benchmarker.DockerBenchmarker.MarkUntrusted | benchmarker/benchmark.go:176-183 | adds exactly the untrusted images of one file |
| Benchmarker.DockerBenchmarker.CheckDisallowedPackages | benchmarker/benchmark.go:190-224 | no entry without a package set; otherwise one CIS 4.3 entry listing `"file: pkg"` once for each package that one of the three install expressions (the package name appended unescaped) matches in a RUN token |
| Benchmarker.DockerBenchmarker.DisallowedInstalls | benchmarker/benchmark.go:196-221 | the violation map's keys are exactly `PackageViolations` |
| Benchmarker.DockerBenchmarker.MarkPackages | benchmarker/benchmark.go:199-220 | adds exactly the disallowed installs of one file |
| Benchmarker.MarkPackage | benchmarker/benchmark.go:200-219 | adds `"file: pkg"` iff one of the apt, apt-get or apk expressions for the package matches |
| Benchmarker.DockerBenchmarker.CheckHealthCheck | benchmarker/benchmark.go:227-239 | appends one CIS 4.6 entry listing, once each, exactly the files with no `healthcheck` instruction |
| Benchmarker.DockerBenchmarker.FilesWithoutHealthcheck | benchmarker/benchmark.go:228-236 | each file without `healthcheck` occurs once, and no other file occurs |
| Benchmarker.DockerBenchmarker.CheckRunUpdateOnly | benchmarker/benchmark.go:242-276 | appends one CIS 4.7 entry in which every registered file occurs once per triggering package-manager pair (0 to 3 times) and no other name occurs |
| Benchmarker.DockerBenchmarker.UpdateOnlyFiles | benchmarker/benchmark.go:243-273 | the list's multiset is one copy of a file per triggering pair |
| Benchmarker.UpdateOnlyEntries | benchmarker/benchmark.go:246-271 | one file's entries: the file once for each of the apt, apt-get and apk pairs that triggers |
| Benchmarker.PairTriggers | benchmarker/benchmark.go:247-253 | a pair triggers iff some RUN index matching the update expression is not among those matching the install expression |
| Benchmarker.InsertAt | benchmarker/benchmark.go:247-248 | inserting `d` at `k` puts `d` there and moves every other instruction from `k` on one place up |
| Benchmarker.MatchShift | benchmarker/benchmark.go:247-248 | an instruction matches a RUN pattern before an insertion iff it does at its moved position after it |
| Benchmarker.MatchUnshift | benchmarker/benchmark.go:247-248 | when the inserted instruction is not a RUN, every RUN match after the insertion is an old match, moved |
| Benchmarker.MatchSetInsert | benchmarker/benchmark.go:247-248 | inserting an instruction that is not a RUN turns the RUN match set into its image under the one-place shift from `k` on |
| Benchmarker.UpdateOnlyInsert | benchmarker/benchmark.go:246-253 | a pair's update-without-install verdict is unchanged by inserting an instruction that is not a RUN anywhere |
| Benchmarker.UpdateOnlyCountInsert | benchmarker/benchmark.go:246-271 | the number of CIS 4.7 entries for a file is unchanged by such an insertion |
| Benchmarker.UpdateOnlyCountMove | benchmarker/benchmark.go:246-271 | moving an instruction that is not a RUN (a COPY before or after the RUN pair, say) to any position leaves the file's CIS 4.7 entries unchanged |
| Benchmarker.DockerBenchmarker.CheckAdd | benchmarker/benchmark.go:292-304 | appends one CIS 4.9 entry listing, once each, exactly the files with an `add` instruction |
| Benchmarker.DockerBenchmarker.FilesWithAdd | benchmarker/benchmark.go:293-301 | each file with `add` occurs once, and no other file occurs |
| Benchmarker.DockerBenchmarker.CheckSecretsInsideImage | benchmarker/benchmark.go:307-333 | no entry without a pattern set; otherwise one CIS 4.10 entry listing once each `"file: ENV contains 'p'"` and `"file: LABEL contains 'p'"` for every pattern matching an ENV or LABEL token |
| Benchmarker.DockerBenchmarker.SecretsFound | benchmarker/benchmark.go:312-330 | the violation map's keys are exactly `SecretViolations` |
| Benchmarker.DockerBenchmarker.MarkSecrets | benchmarker/benchmark.go:315-329 | adds exactly the secret hits of one file |
| Benchmarker.MarkSecret | benchmarker/benchmark.go:316-328 | adds the ENV violation iff the pattern matches an ENV token, and the LABEL violation iff it matches a LABEL token |
| Cli.ParseList | main.go:125-135 | the result is `Kept` of the comma-separated pieces: the non-empty pieces, trimmed, in order |
| Cli.KeptMembers | main.go:129-133 | an item occurs iff it is the trimmed form of some non-empty piece |
| Cli.KeptCount | main.go:129-133 | one item per piece, less the empty pieces |
| Cli.KeptItems | main.go:127-133 | no item holds a comma, and none starts or ends with white space |
| Cli.ParseListEmpty | main.go:125-135 | an empty input gives an empty list |
| Cli.ParseListBound | main.go:127-133 | at most one item more than there are commas |
| Cli.BlankPieceKept | main.go:130-131 | a piece of white space only is kept, as the empty item |

## Left out

- File and parser I/O in `ParseDockerfile` (`os.Open`, `parser.Parse`, their errors) and the debug-mode AST dump (benchmarker/benchmark.go:74-89). The model takes the parsed child nodes as a parameter. The `debugMode` field is not modelled.
- buildkit's `parser.Node` is not part of this model. It is a local datatype holding a value, flags, and a `Next` chain.
- Go's `regexp` package. It is the parameter `Regexp`, which holds a compile test and a match relation. Only how patterns are built, by unescaped concatenation, is modelled.
- `GetBaseImages` is not part of this model. It is the parameter `baseImages` of CIS 4.2.
- The directive constants `USER`, `HEALTHCHECK`, `ADD`, `ENV` and `LABEL` that benchmarker/benchmark.go uses are not part of this model. They are the lower-case literals `user`, `healthcheck`, `add`, `env` and `label`, next to pkg/dockerfile/types.go's own `Healthcheck`, `User`, `Root`, `Add` and `Run`.
- `InitDockerInstruction` (pkg/dockerfile/types.go:29-35) is folded into `AddNode`. Instructions are values, not pointers; nothing in the core aliases or mutates them after they are added.
- Unicode: `ToLower`, `IsSpace` and `TrimSpace` work on ASCII only.
- Go's map iteration order: no order is modelled. Lists built from maps are specified up to order.
- The report is returned as its entry list; Go's struct copy carries no further behaviour.
- The rest of main.go: flag handling, logging, the directory walk with permission checks, and JSON output.
- The test file of the benchmarker package.
