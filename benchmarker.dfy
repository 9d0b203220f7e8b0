/**
 * benchmarker/benchmark.go: the DockerBenchmarker, which holds the parsed
 * Dockerfiles and the three optional configuration sets, runs the seven
 * CIS checks over them and appends one report entry per check.
 */
module Benchmarker {
  import opened Wrappers
  import opened GoStrings
  import opened Utils
  import opened Benchmark
  import opened Dockerfile

  // Regular expressions of the checks, as written (backslashes kept).
  const AptUpdate := @"apt\s+update"
  const AptInstall := @"apt\s+install"
  const AptGetUpdate := @"apt-get\s+update"
  const AptGetInstall := @"apt-get\s+install"
  const ApkUpdate := @"apk\s+update"
  const ApkAdd := @"apk\s+add"
  // Prefixes to which a disallowed package name is appended unescaped.
  const AptInstallPrefix := @"apt\s+install\s+[^;|&]+"
  const AptGetInstallPrefix := @"apt-get\s+install\s+[^;|&]+"
  const ApkAddPrefix := @"apk\s+add\s+[^;|&]+"

  /** createViolation: the file name, a colon and a space, then the detail. */
  function CreateViolation(file: string, detail: string): (v: string)
    ensures |v| == |file| + 2 + |detail|
    ensures v[..|file|] == file && v[|file|..|file| + 2] == ": " && v[|file| + 2..] == detail
  {
    file + ": " + detail
  }

  /**
   * A violation string names one file and one detail: when neither file
   * name contains a colon, equal strings come from equal pairs.
   */
  lemma CreateViolationInjective(f1: string, d1: string, f2: string, d2: string)
    requires ':' !in f1 && ':' !in f2
    requires CreateViolation(f1, d1) == CreateViolation(f2, d2)
    ensures f1 == f2 && d1 == d2
  {
    NoShorterFile(f1, d1, f2, d2);
    NoShorterFile(f2, d2, f1, d1);
    var v := CreateViolation(f1, d1);
    assert f1 == v[..|f1|] == f2;
  }

  /** The colon after `f1` would lie inside `f2` if `f1` were the shorter name. */
  lemma NoShorterFile(f1: string, d1: string, f2: string, d2: string)
    requires ':' !in f2
    requires CreateViolation(f1, d1) == CreateViolation(f2, d2)
    ensures |f2| <= |f1|
  {
    var v := CreateViolation(f1, d1);
    assert forall k :: 0 <= k < |f2| ==> v[k] == f2[k] && v[k] != ':';
    assert v[|f1|] == ':';
  }

  /** The detail of a 4.10 violation found in an ENV instruction. */
  function EnvDetail(pattern: string): string {
    "ENV contains '" + pattern + "'"
  }

  /** The detail of a 4.10 violation found in a LABEL instruction. */
  function LabelDetail(pattern: string): string {
    "LABEL contains '" + pattern + "'"
  }

  /** An ENV detail never equals a LABEL detail, whatever the two patterns. */
  lemma EnvLabelDistinct(p: string, q: string)
    ensures EnvDetail(p) != LabelDetail(q)
  {
    assert EnvDetail(p)[0] == 'E' && LabelDetail(q)[0] == 'L';
  }

  /**
   * An ENV hit and a LABEL hit give different violation strings when they
   * are in the same file, or in two files whose names hold no colon.
   */
  lemma SecretKindsApart(f1: string, p: string, f2: string, q: string)
    requires f1 == f2 || (':' !in f1 && ':' !in f2)
    ensures CreateViolation(f1, EnvDetail(p)) != CreateViolation(f2, LabelDetail(q))
  {
    EnvLabelDistinct(p, q);
    if f1 != f2 && CreateViolation(f1, EnvDetail(p)) == CreateViolation(f2, LabelDetail(q)) {
      CreateViolationInjective(f1, EnvDetail(p), f2, LabelDetail(q));
    }
  }

  // ---------------------------------------------------------------- CIS 4.1

  /**
   * The test CheckNonRootUser applies to the lower-cased first content
   * token of a USER instruction. With a colon, the first two
   * colon-separated parts must both be neither "root" nor "0" (any further
   * part is not looked at); without one, the whole token must be neither.
   */
  function UserPasses(content: string): bool {
    if ':' in content then
      var list := Split(content, ':');
      list[0] != Root && list[1] != Root && list[0] != "0" && list[1] != "0"
    else
      content != Root && content != "0"
  }

  /** A USER instruction whose first content token names a user other than root. */
  predicate CreatesNonRootUser(di: DockerInstruction) {
    di.instruction == User && |di.content| > 0 && UserPasses(ToLower(di.content[0]))
  }

  predicate NonRootUserCreated(instructions: seq<DockerInstruction>) {
    exists k :: 0 <= k < |instructions| && CreatesNonRootUser(instructions[k])
  }

  /** Only the user and group parts are checked: whatever follows a second colon is ignored. */
  lemma UserIgnoresThirdPart(user: string, group: string, rest: string)
    requires ':' !in user && ':' !in group
    ensures UserPasses(user + ":" + group + ":" + rest)
        == (user != Root && group != Root && user != "0" && group != "0")
  {
    var s := user + ":" + group + ":" + rest;
    var tail := group + [':'] + rest;
    assert s == user + [':'] + tail;
    SplitAtFirst(user, tail, ':');
    SplitAtFirst(group, rest, ':');
    var parts := Split(s, ':');
    assert parts[0] == user && parts[1] == group;
    assert s[|user|] == ':';
  }

  /** The `user:group` form: both parts must be neither root nor 0. */
  lemma UserGroup(user: string, group: string)
    requires ':' !in user && ':' !in group
    ensures UserPasses(user + ":" + group)
        == (user != Root && group != Root && user != "0" && group != "0")
  {
    var s := user + ":" + group;
    assert s == user + [':'] + group;
    SplitAtFirst(user, group, ':');
    SplitNoSep(group, ':');
    var parts := Split(s, ':');
    assert parts[0] == user && parts[1] == group;
    assert s[|user|] == ':';
  }

  // ---------------------------------------------------------------- the violation sets

  /** CIS 4.1: the files in which no non-root user is created. */
  ghost function NonRootViolations(files: map<string, seq<DockerInstruction>>): set<string> {
    set f | f in files && !NonRootUserCreated(files[f])
  }

  /** CIS 4.2: "file: image" for every base image of a file that is not trusted. */
  ghost function TrustedImageViolations(files: map<string, seq<DockerInstruction>>,
                                        baseImages: seq<DockerInstruction> -> seq<string>,
                                        trusted: set<string>): set<string> {
    set f, image | f in files && image in baseImages(files[f]) && image !in trusted :: CreateViolation(f, image)
  }

  /** A RUN token matches one of the three install regular expressions built for `pkg`. */
  predicate InstallsPackage(instructions: seq<DockerInstruction>, pkg: string, re: Regexp) {
    MatchSet(instructions, Run, AptInstallPrefix + pkg, re) != {}
    || MatchSet(instructions, Run, AptGetInstallPrefix + pkg, re) != {}
    || MatchSet(instructions, Run, ApkAddPrefix + pkg, re) != {}
  }

  /** CIS 4.3: "file: pkg" for every disallowed package a file installs. */
  ghost function PackageViolations(files: map<string, seq<DockerInstruction>>, packages: set<string>, re: Regexp): set<string> {
    set f, pkg | f in files && pkg in packages && InstallsPackage(files[f], pkg, re) :: CreateViolation(f, pkg)
  }

  /** CIS 4.6: the files without a HEALTHCHECK instruction. */
  ghost function HealthcheckViolations(files: map<string, seq<DockerInstruction>>): set<string> {
    set f | f in files && !HasDirective(files[f], ToLower(Healthcheck))
  }

  /**
   * One update/install pair of CIS 4.7 triggers when some RUN instruction
   * matches the update pattern and does not match the install pattern.
   */
  predicate UpdateOnly(instructions: seq<DockerInstruction>, update: string, install: string, re: Regexp) {
    MatchSet(instructions, Run, update, re) - MatchSet(instructions, Run, install, re) != {}
  }

  /** CIS 4.7: how often a file is listed, one for each of the apt, apt-get and apk pairs that triggers. */
  function UpdateOnlyCount(instructions: seq<DockerInstruction>, re: Regexp): int {
    (if UpdateOnly(instructions, AptUpdate, AptInstall, re) then 1 else 0)
    + (if UpdateOnly(instructions, AptGetUpdate, AptGetInstall, re) then 1 else 0)
    + (if UpdateOnly(instructions, ApkUpdate, ApkAdd, re) then 1 else 0)
  }

  /**
   * The entries CheckRunUpdateOnly appends for one file: the file once for
   * each of the apt, apt-get and apk pairs that triggers, in that order.
   */
  function Triggered(file: string, instructions: seq<DockerInstruction>, re: Regexp): seq<string> {
    (if UpdateOnly(instructions, AptUpdate, AptInstall, re) then [file] else [])
    + (if UpdateOnly(instructions, AptGetUpdate, AptGetInstall, re) then [file] else [])
    + (if UpdateOnly(instructions, ApkUpdate, ApkAdd, re) then [file] else [])
  }

  /** The CIS 4.7 list built for the files visited in `order`. */
  ghost function UpdateOnlyListed(order: seq<string>, files: map<string, seq<DockerInstruction>>, re: Regexp): seq<string> {
    if order == [] then []
    else
      var file := order[|order| - 1];
      UpdateOnlyListed(order[..|order| - 1], files, re) + (if file in files then Triggered(file, files[file], re) else [])
  }

  /** The entries for one file name only that file, once per triggering pair. */
  lemma TriggeredCounts(file: string, instructions: seq<DockerInstruction>, re: Regexp)
    ensures forall g :: multiset(Triggered(file, instructions, re))[g] == if g == file then UpdateOnlyCount(instructions, re) else 0
  {
  }

  // CIS 4.7 compares positions only within one file's RUN matches, so an
  // instruction that is not a RUN can be put anywhere without changing it.

  /** Where position `x` ends up once an instruction is inserted at `k`. */
  function Shift(x: int, k: int): int {
    if x < k then x else x + 1
  }

  /** `instructions` with `d` inserted at position `k`. */
  function InsertAt(instructions: seq<DockerInstruction>, k: nat, d: DockerInstruction): (r: seq<DockerInstruction>)
    requires k <= |instructions|
    ensures |r| == |instructions| + 1 && r[k] == d
    ensures forall x :: 0 <= x < |instructions| ==> r[Shift(x, k)] == instructions[x]
  {
    instructions[..k] + [d] + instructions[k..]
  }

  /** An instruction keeps its RUN match status when it is moved one place up. */
  lemma MatchShift(instructions: seq<DockerInstruction>, k: nat, d: DockerInstruction, p: string, re: Regexp, x: int)
    requires k <= |instructions| && 0 <= x < |instructions|
    ensures x in MatchSet(instructions, Run, p, re) <==> Shift(x, k) in MatchSet(InsertAt(instructions, k, d), Run, p, re)
  {
    assert InsertAt(instructions, k, d)[Shift(x, k)] == instructions[x];
  }

  /** Every RUN match after the insertion is an old match, moved. */
  lemma MatchUnshift(instructions: seq<DockerInstruction>, k: nat, d: DockerInstruction, p: string, re: Regexp, y: int)
      returns (x: int)
    requires k <= |instructions| && d.instruction != ToLower(Run)
    requires y in MatchSet(InsertAt(instructions, k, d), Run, p, re)
    ensures 0 <= x < |instructions| && Shift(x, k) == y && x in MatchSet(instructions, Run, p, re)
  {
    var r := InsertAt(instructions, k, d);
    assert 0 <= y < |r| && r[y].instruction == ToLower(Run);
    x := if y < k then y else y - 1;
    MatchShift(instructions, k, d, p, re, x);
  }

  /** Inserting an instruction that is not a RUN moves the RUN matches from `k` on one place up. */
  lemma MatchSetInsert(instructions: seq<DockerInstruction>, k: nat, d: DockerInstruction, p: string, re: Regexp)
    requires k <= |instructions| && d.instruction != ToLower(Run)
    ensures MatchSet(InsertAt(instructions, k, d), Run, p, re) == set x | x in MatchSet(instructions, Run, p, re) :: Shift(x, k)
  {
    var after := MatchSet(InsertAt(instructions, k, d), Run, p, re);
    var moved := set x | x in MatchSet(instructions, Run, p, re) :: Shift(x, k);
    forall y | y in after
      ensures y in moved
    {
      var x := MatchUnshift(instructions, k, d, p, re, y);
    }
    forall x | x in MatchSet(instructions, Run, p, re)
      ensures Shift(x, k) in after
    {
      MatchShift(instructions, k, d, p, re, x);
    }
  }

  /** One CIS 4.7 pair gives the same verdict after an instruction that is not a RUN is inserted. */
  lemma UpdateOnlyInsert(instructions: seq<DockerInstruction>, k: nat, d: DockerInstruction,
                         update: string, install: string, re: Regexp)
    requires k <= |instructions| && d.instruction != ToLower(Run)
    ensures UpdateOnly(InsertAt(instructions, k, d), update, install, re) == UpdateOnly(instructions, update, install, re)
  {
    var r := InsertAt(instructions, k, d);
    var u, i := MatchSet(instructions, Run, update, re), MatchSet(instructions, Run, install, re);
    if u - i != {} {
      var x := SomeElement(u - i);
      MatchShift(instructions, k, d, update, re, x);
      MatchShift(instructions, k, d, install, re, x);
      assert Shift(x, k) in MatchSet(r, Run, update, re) - MatchSet(r, Run, install, re);
    }
    var u', i' := MatchSet(r, Run, update, re), MatchSet(r, Run, install, re);
    if u' - i' != {} {
      var y := SomeElement(u' - i');
      var x := MatchUnshift(instructions, k, d, update, re, y);
      MatchShift(instructions, k, d, install, re, x);
      assert x in u - i;
    }
  }

  /** The number of CIS 4.7 entries for a file is unchanged by inserting an instruction that is not a RUN. */
  lemma UpdateOnlyCountInsert(instructions: seq<DockerInstruction>, k: nat, d: DockerInstruction, re: Regexp)
    requires k <= |instructions| && d.instruction != ToLower(Run)
    ensures UpdateOnlyCount(InsertAt(instructions, k, d), re) == UpdateOnlyCount(instructions, re)
  {
    UpdateOnlyInsert(instructions, k, d, AptUpdate, AptInstall, re);
    UpdateOnlyInsert(instructions, k, d, AptGetUpdate, AptGetInstall, re);
    UpdateOnlyInsert(instructions, k, d, ApkUpdate, ApkAdd, re);
  }

  /**
   * Moving an instruction that is not a RUN (a COPY, say) from position `j`
   * to position `k` leaves the CIS 4.7 entries for the file unchanged.
   */
  lemma UpdateOnlyCountMove(instructions: seq<DockerInstruction>, j: nat, k: nat, re: Regexp)
    requires j < |instructions| && k < |instructions| && instructions[j].instruction != ToLower(Run)
    ensures UpdateOnlyCount(InsertAt(instructions[..j] + instructions[j + 1..], k, instructions[j]), re)
         == UpdateOnlyCount(instructions, re)
  {
    var rest := instructions[..j] + instructions[j + 1..];
    assert InsertAt(rest, j, instructions[j]) == instructions;
    UpdateOnlyCountInsert(rest, j, instructions[j], re);
    UpdateOnlyCountInsert(rest, k, instructions[j], re);
  }

  /**
   * When every file is visited at most once, the CIS 4.7 list names each
   * visited file once per triggering pair and nothing else.
   */
  lemma {:induction false} UpdateOnlyListedCounts(order: seq<string>, files: map<string, seq<DockerInstruction>>, re: Regexp)
    requires forall i, j :: 0 <= i < j < |order| ==> order[i] != order[j]
    ensures forall g :: multiset(UpdateOnlyListed(order, files, re))[g]
                     == if g in files && g in order then UpdateOnlyCount(files[g], re) else 0
  {
    if order != [] {
      var init := order[..|order| - 1];
      var file := order[|order| - 1];
      UpdateOnlyListedCounts(init, files, re);
      if file in files {
        TriggeredCounts(file, files[file], re);
      }
      assert order == init + [file];
      assert file !in init;
    }
  }

  /** CIS 4.9: the files with an ADD instruction. */
  ghost function AddViolations(files: map<string, seq<DockerInstruction>>): set<string> {
    set f | f in files && HasDirective(files[f], ToLower(Add))
  }

  /** CIS 4.10: "file: ENV contains 'p'" and "file: LABEL contains 'p'" for every secret pattern found. */
  ghost function SecretViolations(files: map<string, seq<DockerInstruction>>, patterns: set<string>, re: Regexp): set<string> {
    (set f, p | f in files && p in patterns && MatchSet(files[f], Env, p, re) != {} :: CreateViolation(f, EnvDetail(p)))
    + (set f, p | f in files && p in patterns && MatchSet(files[f], Label, p, re) != {} :: CreateViolation(f, LabelDetail(p)))
  }

  // ---------------------------------------------------------------- per-file violation sets

  /** The CIS 4.2 violations of one file, given its base images. */
  ghost function UntrustedOf(file: string, images: seq<string>, trusted: set<string>): set<string> {
    set image | image in images && image !in trusted :: CreateViolation(file, image)
  }

  lemma UntrustedOfSnoc(file: string, images: seq<string>, j: nat, trusted: set<string>)
    requires j < |images|
    ensures UntrustedOf(file, images[..j + 1], trusted)
         == UntrustedOf(file, images[..j], trusted)
            + (if images[j] in trusted then {} else {CreateViolation(file, images[j])})
  {
    assert images[..j + 1] == images[..j] + [images[j]];
  }

  /** The CIS 4.3 violations of one file for the packages in `packages`. */
  ghost function PackagesOf(file: string, instructions: seq<DockerInstruction>, packages: set<string>, re: Regexp): set<string> {
    set pkg | pkg in packages && InstallsPackage(instructions, pkg, re) :: CreateViolation(file, pkg)
  }

  lemma PackagesOfAdd(file: string, instructions: seq<DockerInstruction>, packages: set<string>, pkg: string, re: Regexp)
    ensures PackagesOf(file, instructions, packages + {pkg}, re)
         == PackagesOf(file, instructions, packages, re)
            + (if InstallsPackage(instructions, pkg, re) then {CreateViolation(file, pkg)} else {})
  {
  }

  /** The CIS 4.10 violations of one file for the patterns in `patterns`: ENV hits, then LABEL hits. */
  ghost function SecretsOf(file: string, instructions: seq<DockerInstruction>, patterns: set<string>, re: Regexp): set<string> {
    EnvSecretsOf(file, instructions, patterns, re) + LabelSecretsOf(file, instructions, patterns, re)
  }

  ghost function EnvSecretsOf(file: string, instructions: seq<DockerInstruction>, patterns: set<string>, re: Regexp): set<string> {
    set p | p in patterns && MatchSet(instructions, Env, p, re) != {} :: CreateViolation(file, EnvDetail(p))
  }

  ghost function LabelSecretsOf(file: string, instructions: seq<DockerInstruction>, patterns: set<string>, re: Regexp): set<string> {
    set p | p in patterns && MatchSet(instructions, Label, p, re) != {} :: CreateViolation(file, LabelDetail(p))
  }

  /** The violations one secret pattern causes in one file. */
  ghost function SecretHits(file: string, instructions: seq<DockerInstruction>, p: string, re: Regexp): set<string> {
    (if MatchSet(instructions, Env, p, re) != {} then {CreateViolation(file, EnvDetail(p))} else {})
    + (if MatchSet(instructions, Label, p, re) != {} then {CreateViolation(file, LabelDetail(p))} else {})
  }

  lemma SecretsOfAdd(file: string, instructions: seq<DockerInstruction>, patterns: set<string>, p: string, re: Regexp)
    ensures SecretsOf(file, instructions, patterns + {p}, re)
         == SecretsOf(file, instructions, patterns, re) + SecretHits(file, instructions, p, re)
  {
    EnvSecretsOfAdd(file, instructions, patterns, p, re);
    LabelSecretsOfAdd(file, instructions, patterns, p, re);
  }

  lemma EnvSecretsOfAdd(file: string, instructions: seq<DockerInstruction>, patterns: set<string>, p: string, re: Regexp)
    ensures EnvSecretsOf(file, instructions, patterns + {p}, re)
         == EnvSecretsOf(file, instructions, patterns, re)
            + (if MatchSet(instructions, Env, p, re) != {} then {CreateViolation(file, EnvDetail(p))} else {})
  {
  }

  lemma LabelSecretsOfAdd(file: string, instructions: seq<DockerInstruction>, patterns: set<string>, p: string, re: Regexp)
    ensures LabelSecretsOf(file, instructions, patterns + {p}, re)
         == LabelSecretsOf(file, instructions, patterns, re)
            + (if MatchSet(instructions, Label, p, re) != {} then {CreateViolation(file, LabelDetail(p))} else {})
  {
  }

  /** The CIS 4.2 violations collected over a listing of all files are exactly TrustedImageViolations. */
  lemma UntrustedUnion(order: seq<string>, files: map<string, seq<DockerInstruction>>,
                       baseImages: seq<DockerInstruction> -> seq<string>, trusted: set<string>,
                       perFile: string -> set<string>)
    requires forall f :: f in order <==> f in files
    requires forall f :: perFile(f) == if f in files then UntrustedOf(f, baseImages(files[f]), trusted) else {}
    ensures UnionOver(order, perFile) == TrustedImageViolations(files, baseImages, trusted)
  {
    UnionOverMembers(order, perFile);
  }

  /** The CIS 4.3 violations collected over a listing of all files are exactly PackageViolations. */
  lemma PackagesUnion(order: seq<string>, files: map<string, seq<DockerInstruction>>,
                      packages: set<string>, re: Regexp, perFile: string -> set<string>)
    requires forall f :: f in order <==> f in files
    requires forall f :: perFile(f) == if f in files then PackagesOf(f, files[f], packages, re) else {}
    ensures UnionOver(order, perFile) == PackageViolations(files, packages, re)
  {
    UnionOverMembers(order, perFile);
  }

  /** The CIS 4.10 violations collected over a listing of all files are exactly SecretViolations. */
  lemma SecretsUnion(order: seq<string>, files: map<string, seq<DockerInstruction>>,
                     patterns: set<string>, re: Regexp, perFile: string -> set<string>)
    requires forall f :: f in order <==> f in files
    requires forall f :: perFile(f) == if f in files then SecretsOf(f, files[f], patterns, re) else {}
    ensures UnionOver(order, perFile) == SecretViolations(files, patterns, re)
  {
    UnionOverMembers(order, perFile);
  }

  // ---------------------------------------------------------------- registering parsed files

  /** The instructions AddNode builds from the top-level nodes of a parse, one per node, in order. */
  function Converted(nodes: seq<Node>): (instructions: seq<DockerInstruction>)
    ensures |instructions| == |nodes|
    ensures forall k :: 0 <= k < |nodes| ==> instructions[k] == FromNode(nodes[k])
  {
    if nodes == [] then [] else Converted(nodes[..|nodes| - 1]) + [FromNode(nodes[|nodes| - 1])]
  }

  /**
   * The files after the nodes of one more parse of `file` are registered:
   * an empty Dockerfile is created on first reference, the converted nodes
   * are appended to it, and every other file keeps its instructions.
   */
  ghost function Registered(files: map<string, seq<DockerInstruction>>, file: string, nodes: seq<Node>)
    : map<string, seq<DockerInstruction>>
  {
    files[file := (if file in files then files[file] else []) + Converted(nodes)]
  }

  /** Parsing a file twice registers the same instructions as parsing the concatenated nodes once. */
  lemma RegisterTwice(files: map<string, seq<DockerInstruction>>, file: string, a: seq<Node>, b: seq<Node>)
    ensures Registered(Registered(files, file, a), file, b) == Registered(files, file, a + b)
  {
    var start := if file in files then files[file] else [];
    ConvertedAppend(a, b);
    AppendAssoc(start, Converted(a), Converted(b));
  }

  /** Converting two node lists one after the other converts their concatenation. */
  lemma ConvertedAppend(a: seq<Node>, b: seq<Node>)
    ensures Converted(a + b) == Converted(a) + Converted(b)
  {
    var whole, parts := Converted(a + b), Converted(a) + Converted(b);
    assert |whole| == |parts|;
    forall k | 0 <= k < |whole|
      ensures whole[k] == parts[k]
    {
      if k < |a| {
        assert (a + b)[k] == a[k];
      } else {
        assert (a + b)[k] == b[k - |a|];
      }
    }
  }

  // ---------------------------------------------------------------- diffArray

  /**
   * diffArray: the distinct elements of `arr1` missing from `arr2`, and the
   * distinct elements of `arr2` missing from `arr1`, each in map order.
   */
  method DiffArray(arr1: seq<int>, arr2: seq<int>) returns (arr3: seq<int>, arr4: seq<int>)
    ensures ListsEachOnce(arr3, Elements(arr1) - Elements(arr2))
    ensures ListsEachOnce(arr4, Elements(arr2) - Elements(arr1))
  {
    var m1: map<int, bool> := map[];
    var m2: map<int, bool> := map[];
    for k := 0 to |arr1|
      invariant m1.Keys == Elements(arr1[..k])
    {
      assert arr1[..k + 1] == arr1[..k] + [arr1[k]];
      m1 := m1[arr1[k] := true];
    }
    assert arr1[..|arr1|] == arr1;
    for k := 0 to |arr2|
      invariant m2.Keys == Elements(arr2[..k])
    {
      assert arr2[..k + 1] == arr2[..k] + [arr2[k]];
      m2 := m2[arr2[k] := true];
    }
    assert arr2[..|arr2|] == arr2;
    arr3 := KeysMissing(m1, m2);
    arr4 := KeysMissing(m2, m1);
  }

  /** One of the two key loops of diffArray: the keys of `m` that `other` lacks. */
  method KeysMissing(m: map<int, bool>, other: map<int, bool>) returns (arr: seq<int>)
    ensures ListsEachOnce(arr, m.Keys - other.Keys)
  {
    var order := MapOrder(m.Keys);
    ListsEachOnceSize(order, m.Keys);
    arr := [];
    for i := 0 to |order|
      invariant arr == Filter(order[..i], m.Keys - other.Keys)
    {
      FilterSnoc(order, i, m.Keys - other.Keys);
      if order[i] !in other {
        arr := arr + [order[i]];
      }
    }
    assert order[..|order|] == order;
    FilterListsEachOnce(order, m.Keys, m.Keys - other.Keys);
  }

  /** A witness that a non-empty set of integers has an element. */
  lemma SomeElement(s: set<int>) returns (x: int)
    requires s != {}
    ensures x in s
  {
    if forall y :: y !in s {
      assert false;
    }
    x :| x in s;
  }

  // ---------------------------------------------------------------- report entries

  /** The report grew by exactly one entry, for `rule`, and kept every earlier entry. */
  ghost predicate AppendedOne(before: seq<RuleViolation>, after: seq<RuleViolation>, rule: string) {
    |after| == |before| + 1 && after[..|before|] == before && after[|before|].rule == rule
  }

  /** The seven checks of RunBenchmark. */
  datatype Check = NonRootUser | TrustedBaseImages | DisallowedPackages | HealthCheck | RunUpdateOnly | AddInstruction | Secrets

  /** The rule a check reports under. */
  function RuleOf(check: Check): (rule: string)
    ensures rule in AllRules
  {
    match check
    case NonRootUser => CIS_4_1
    case TrustedBaseImages => CIS_4_2
    case DisallowedPackages => CIS_4_3
    case HealthCheck => CIS_4_6
    case RunUpdateOnly => CIS_4_7
    case AddInstruction => CIS_4_9
    case Secrets => CIS_4_10
  }

  /** The checks RunBenchmark reports, in order: the three configurable ones only when configured. */
  function ExpectedChecks(trusted: bool, disallowed: bool, secrets: bool): (checks: seq<Check>)
    ensures |checks| == 4 + (if trusted then 1 else 0) + (if disallowed then 1 else 0) + (if secrets then 1 else 0)
  {
    [NonRootUser]
    + Optional(trusted, TrustedBaseImages)
    + Optional(disallowed, DisallowedPackages)
    + [HealthCheck]
    + [RunUpdateOnly]
    + [AddInstruction]
    + Optional(secrets, Secrets)
  }

  /** The position of a check in RunBenchmark. */
  function Rank(check: Check): nat {
    match check
    case NonRootUser => 0
    case TrustedBaseImages => 1
    case DisallowedPackages => 2
    case HealthCheck => 3
    case RunUpdateOnly => 4
    case AddInstruction => 5
    case Secrets => 6
  }

  /** Whether RunBenchmark reports `check` under the given configuration. */
  predicate Enabled(check: Check, trusted: bool, disallowed: bool, secrets: bool) {
    match check
    case TrustedBaseImages => trusted
    case DisallowedPackages => disallowed
    case Secrets => secrets
    case _ => true
  }

  /** The checks come in strictly increasing rank, so in RunBenchmark's order and each at most once. */
  predicate Ranked(checks: seq<Check>) {
    forall i, j :: 0 <= i < j < |checks| ==> Rank(checks[i]) < Rank(checks[j])
  }

  /** The check `check` when `on`, nothing otherwise. */
  function Optional(on: bool, check: Check): (piece: seq<Check>)
    ensures forall c :: c in piece <==> on && c == check
  {
    if on then [check] else []
  }

  /** Appending at most one check that ranks above everything so far keeps the list ranked. */
  lemma RankedExtend(prefix: seq<Check>, piece: seq<Check>, below: nat, above: nat)
    requires Ranked(prefix) && forall c :: c in prefix ==> Rank(c) < below
    requires below <= above
    requires |piece| <= 1 && forall c :: c in piece ==> below <= Rank(c) < above
    ensures Ranked(prefix + piece) && forall c :: c in prefix + piece ==> Rank(c) < above
  {
    var whole := prefix + piece;
    forall i, j | 0 <= i < j < |whole|
      ensures Rank(whole[i]) < Rank(whole[j])
    {
      assert whole[i] == prefix[i] && prefix[i] in prefix;
      if j < |prefix| {
        assert whole[j] == prefix[j];
      } else {
        assert whole[j] == piece[j - |prefix|] && piece[j - |prefix|] in piece;
      }
    }
  }

  /**
   * A run reports the enabled checks and no others, in the order of
   * RunBenchmark and so each at most once.
   */
  lemma ExpectedChecksMembers(trusted: bool, disallowed: bool, secrets: bool)
    ensures var checks := ExpectedChecks(trusted, disallowed, secrets);
      && (forall i, j :: 0 <= i < j < |checks| ==> Rank(checks[i]) < Rank(checks[j]))
      && (forall c :: c in checks <==> Enabled(c, trusted, disallowed, secrets))
  {
    var s1 := [NonRootUser];
    var s2 := s1 + Optional(trusted, TrustedBaseImages);
    var s3 := s2 + Optional(disallowed, DisallowedPackages);
    var s4 := s3 + [HealthCheck];
    var s5 := s4 + [RunUpdateOnly];
    var s6 := s5 + [AddInstruction];
    var s7 := s6 + Optional(secrets, Secrets);
    RankedExtend(s1, Optional(trusted, TrustedBaseImages), 1, 2);
    RankedExtend(s2, Optional(disallowed, DisallowedPackages), 2, 3);
    RankedExtend(s3, [HealthCheck], 3, 4);
    RankedExtend(s4, [RunUpdateOnly], 4, 5);
    RankedExtend(s5, [AddInstruction], 5, 6);
    RankedExtend(s6, Optional(secrets, Secrets), 6, 7);
    assert ExpectedChecks(trusted, disallowed, secrets) == s7;
    forall c
      ensures c in s7 <==> Enabled(c, trusted, disallowed, secrets)
    {
      assert c in s7 <==> c in s6 || (secrets && c == Secrets);
      assert c in s6 <==> c in s5 || c == AddInstruction;
      assert c in s5 <==> c in s4 || c == RunUpdateOnly;
      assert c in s4 <==> c in s3 || c == HealthCheck;
      assert c in s3 <==> c in s2 || (disallowed && c == DisallowedPackages);
      assert c in s2 <==> c == NonRootUser || (trusted && c == TrustedBaseImages);
    }
  }

  /**
   * What the entry of `check` lists, for the files and configuration at
   * the time of the run.
   */
  ghost predicate EntryHolds(check: Check, violations: seq<string>, files: map<string, seq<DockerInstruction>>,
                             trusted: Option<set<string>>, packages: Option<set<string>>, patterns: Option<set<string>>,
                             re: Regexp, baseImages: seq<DockerInstruction> -> seq<string>) {
    match check
    case NonRootUser => ListsEachOnce(violations, NonRootViolations(files))
    case TrustedBaseImages =>
      trusted.Some? && ListsEachOnce(violations, TrustedImageViolations(files, baseImages, trusted.value))
    case DisallowedPackages =>
      packages.Some? && ListsEachOnce(violations, PackageViolations(files, packages.value, re))
    case HealthCheck => ListsEachOnce(violations, HealthcheckViolations(files))
    case RunUpdateOnly =>
      forall f :: multiset(violations)[f] == if f in files then UpdateOnlyCount(files[f], re) else 0
    case AddInstruction => ListsEachOnce(violations, AddViolations(files))
    case Secrets =>
      patterns.Some? && ListsEachOnce(violations, SecretViolations(files, patterns.value, re))
  }

  /** Entry `k` of `entries` is the entry of check `k` of `checks`, under its rule and listing what the check finds. */
  ghost predicate Matches(entries: seq<RuleViolation>, checks: seq<Check>,
                          files: map<string, seq<DockerInstruction>>,
                          trusted: Option<set<string>>, packages: Option<set<string>>, patterns: Option<set<string>>,
                          re: Regexp, baseImages: seq<DockerInstruction> -> seq<string>) {
    && |entries| == |checks|
    && forall k :: 0 <= k < |entries| ==>
         entries[k].rule == RuleOf(checks[k])
         && EntryHolds(checks[k], entries[k].violations, files, trusted, packages, patterns, re, baseImages)
  }

  lemma MatchesSnoc(entries: seq<RuleViolation>, checks: seq<Check>, entry: RuleViolation, check: Check,
                    files: map<string, seq<DockerInstruction>>,
                    trusted: Option<set<string>>, packages: Option<set<string>>, patterns: Option<set<string>>,
                    re: Regexp, baseImages: seq<DockerInstruction> -> seq<string>)
    requires Matches(entries, checks, files, trusted, packages, patterns, re, baseImages)
    requires entry.rule == RuleOf(check)
    requires EntryHolds(check, entry.violations, files, trusted, packages, patterns, re, baseImages)
    ensures Matches(entries + [entry], checks + [check], files, trusted, packages, patterns, re, baseImages)
  {
  }

  lemma AppendParts<T>(a: seq<T>, b: seq<T>)
    ensures (a + b)[..|a|] == a && (a + b)[|a|..] == b
  {
  }

  /**
   * The seven checks of RunBenchmark, each as its own contract states it,
   * together append exactly the entries of ExpectedChecks.
   */
  lemma RunComposition(v0: seq<RuleViolation>, v1: seq<RuleViolation>, v2: seq<RuleViolation>, v3: seq<RuleViolation>,
                       v4: seq<RuleViolation>, v5: seq<RuleViolation>, v6: seq<RuleViolation>, v7: seq<RuleViolation>,
                       files: map<string, seq<DockerInstruction>>,
                       trusted: Option<set<string>>, packages: Option<set<string>>, patterns: Option<set<string>>,
                       re: Regexp, baseImages: seq<DockerInstruction> -> seq<string>)
    requires AppendedOne(v0, v1, CIS_4_1)
    requires ListsEachOnce(Last(v1).violations, NonRootViolations(files))
    requires trusted.None? ==> v2 == v1
    requires trusted.Some? ==> AppendedOne(v1, v2, CIS_4_2) && ListsEachOnce(Last(v2).violations, TrustedImageViolations(files, baseImages, trusted.value))
    requires packages.None? ==> v3 == v2
    requires packages.Some? ==> AppendedOne(v2, v3, CIS_4_3) && ListsEachOnce(Last(v3).violations, PackageViolations(files, packages.value, re))
    requires AppendedOne(v3, v4, CIS_4_6)
    requires ListsEachOnce(Last(v4).violations, HealthcheckViolations(files))
    requires AppendedOne(v4, v5, CIS_4_7)
    requires forall f :: multiset(Last(v5).violations)[f] == if f in files then UpdateOnlyCount(files[f], re) else 0
    requires AppendedOne(v5, v6, CIS_4_9)
    requires ListsEachOnce(Last(v6).violations, AddViolations(files))
    requires patterns.None? ==> v7 == v6
    requires patterns.Some? ==> AppendedOne(v6, v7, CIS_4_10) && ListsEachOnce(Last(v7).violations, SecretViolations(files, patterns.value, re))
    ensures |v7| >= |v0| && v7[..|v0|] == v0
    ensures Matches(v7[|v0|..], ExpectedChecks(trusted.Some?, packages.Some?, patterns.Some?), files, trusted, packages, patterns, re, baseImages)
  {
    var a3 := FirstChecks(v0, v1, v2, v3, files, trusted, packages, patterns, re, baseImages);
    var c3 := [NonRootUser] + Optional(trusted.Some?, TrustedBaseImages) + Optional(packages.Some?, DisallowedPackages);
    var a7 := LastChecks(v0, v3, v4, v5, v6, v7, a3, c3, files, trusted, packages, patterns, re, baseImages);
    AppendParts(v0, a7);
  }

  /** The last four checks of RunBenchmark append the entries of 4.6, 4.7 and 4.9, then 4.10 when configured. */
  lemma LastChecks(v0: seq<RuleViolation>, v3: seq<RuleViolation>, v4: seq<RuleViolation>, v5: seq<RuleViolation>,
                   v6: seq<RuleViolation>, v7: seq<RuleViolation>, added: seq<RuleViolation>, checks: seq<Check>,
                   files: map<string, seq<DockerInstruction>>,
                   trusted: Option<set<string>>, packages: Option<set<string>>, patterns: Option<set<string>>,
                   re: Regexp, baseImages: seq<DockerInstruction> -> seq<string>)
    returns (added': seq<RuleViolation>)
    requires v3 == v0 + added
    requires Matches(added, checks, files, trusted, packages, patterns, re, baseImages)
    requires AppendedOne(v3, v4, CIS_4_6)
    requires ListsEachOnce(Last(v4).violations, HealthcheckViolations(files))
    requires AppendedOne(v4, v5, CIS_4_7)
    requires forall f :: multiset(Last(v5).violations)[f] == if f in files then UpdateOnlyCount(files[f], re) else 0
    requires AppendedOne(v5, v6, CIS_4_9)
    requires ListsEachOnce(Last(v6).violations, AddViolations(files))
    requires patterns.None? ==> v7 == v6
    requires patterns.Some? ==> AppendedOne(v6, v7, CIS_4_10) && ListsEachOnce(Last(v7).violations, SecretViolations(files, patterns.value, re))
    ensures v7 == v0 + added'
    ensures Matches(added', checks + [HealthCheck] + [RunUpdateOnly] + [AddInstruction] + Optional(patterns.Some?, Secrets),
                    files, trusted, packages, patterns, re, baseImages)
  {
    var a6 := MiddleChecks(v0, v3, v4, v5, v6, added, checks, files, trusted, packages, patterns, re, baseImages);
    added' := GrowOptional(v0, v6, v7, a6, checks + [HealthCheck] + [RunUpdateOnly] + [AddInstruction], patterns.Some?, Secrets,
                           files, trusted, packages, patterns, re, baseImages);
  }

  /** The three unconditional checks after 4.3 append the entries of 4.6, 4.7 and 4.9. */
  lemma MiddleChecks(v0: seq<RuleViolation>, v3: seq<RuleViolation>, v4: seq<RuleViolation>, v5: seq<RuleViolation>,
                     v6: seq<RuleViolation>, added: seq<RuleViolation>, checks: seq<Check>,
                     files: map<string, seq<DockerInstruction>>,
                     trusted: Option<set<string>>, packages: Option<set<string>>, patterns: Option<set<string>>,
                     re: Regexp, baseImages: seq<DockerInstruction> -> seq<string>)
    returns (added': seq<RuleViolation>)
    requires v3 == v0 + added
    requires Matches(added, checks, files, trusted, packages, patterns, re, baseImages)
    requires AppendedOne(v3, v4, CIS_4_6)
    requires ListsEachOnce(Last(v4).violations, HealthcheckViolations(files))
    requires AppendedOne(v4, v5, CIS_4_7)
    requires forall f :: multiset(Last(v5).violations)[f] == if f in files then UpdateOnlyCount(files[f], re) else 0
    requires AppendedOne(v5, v6, CIS_4_9)
    requires ListsEachOnce(Last(v6).violations, AddViolations(files))
    ensures v6 == v0 + added'
    ensures Matches(added', checks + [HealthCheck] + [RunUpdateOnly] + [AddInstruction],
                    files, trusted, packages, patterns, re, baseImages)
  {
    var a4 := Grow(v0, v3, v4, added, checks, HealthCheck, files, trusted, packages, patterns, re, baseImages);
    var c4 := checks + [HealthCheck];
    var a5 := Grow(v0, v4, v5, a4, c4, RunUpdateOnly, files, trusted, packages, patterns, re, baseImages);
    added' := Grow(v0, v5, v6, a5, c4 + [RunUpdateOnly], AddInstruction, files, trusted, packages, patterns, re, baseImages);
  }

  /** The first three checks of RunBenchmark append the entries of 4.1, then 4.2 and 4.3 when configured. */
  lemma FirstChecks(v0: seq<RuleViolation>, v1: seq<RuleViolation>, v2: seq<RuleViolation>, v3: seq<RuleViolation>,
                    files: map<string, seq<DockerInstruction>>,
                    trusted: Option<set<string>>, packages: Option<set<string>>, patterns: Option<set<string>>,
                    re: Regexp, baseImages: seq<DockerInstruction> -> seq<string>)
    returns (added: seq<RuleViolation>)
    requires AppendedOne(v0, v1, CIS_4_1)
    requires ListsEachOnce(Last(v1).violations, NonRootViolations(files))
    requires trusted.None? ==> v2 == v1
    requires trusted.Some? ==> AppendedOne(v1, v2, CIS_4_2) && ListsEachOnce(Last(v2).violations, TrustedImageViolations(files, baseImages, trusted.value))
    requires packages.None? ==> v3 == v2
    requires packages.Some? ==> AppendedOne(v2, v3, CIS_4_3) && ListsEachOnce(Last(v3).violations, PackageViolations(files, packages.value, re))
    ensures v3 == v0 + added
    ensures Matches(added, [NonRootUser] + Optional(trusted.Some?, TrustedBaseImages) + Optional(packages.Some?, DisallowedPackages),
                    files, trusted, packages, patterns, re, baseImages)
  {
    var a1 := Grow(v0, v0, v1, [], [], NonRootUser, files, trusted, packages, patterns, re, baseImages);
    var a2 := GrowOptional(v0, v1, v2, a1, [NonRootUser], trusted.Some?, TrustedBaseImages,
                           files, trusted, packages, patterns, re, baseImages);
    added := GrowOptional(v0, v2, v3, a2, [NonRootUser] + Optional(trusted.Some?, TrustedBaseImages), packages.Some?, DisallowedPackages,
                          files, trusted, packages, patterns, re, baseImages);
  }

  /** A configurable check has appended its entry when switched on, and nothing otherwise. */
  lemma GrowOptional(v0: seq<RuleViolation>, mid: seq<RuleViolation>, after: seq<RuleViolation>,
                     added: seq<RuleViolation>, checks: seq<Check>, on: bool, check: Check,
                     files: map<string, seq<DockerInstruction>>,
                     trusted: Option<set<string>>, packages: Option<set<string>>, patterns: Option<set<string>>,
                     re: Regexp, baseImages: seq<DockerInstruction> -> seq<string>)
    returns (added': seq<RuleViolation>)
    requires mid == v0 + added
    requires Matches(added, checks, files, trusted, packages, patterns, re, baseImages)
    requires !on ==> after == mid
    requires on ==> AppendedOne(mid, after, RuleOf(check))
                    && EntryHolds(check, Last(after).violations, files, trusted, packages, patterns, re, baseImages)
    ensures after == v0 + added'
    ensures Matches(added', checks + Optional(on, check), files, trusted, packages, patterns, re, baseImages)
  {
    if on {
      added' := Grow(v0, mid, after, added, checks, check, files, trusted, packages, patterns, re, baseImages);
    } else {
      added' := added;
      assert checks + Optional(on, check) == checks;
    }
  }

  /** One more check has appended its entry: the entries added since `v0` grow by that entry. */
  lemma Grow(v0: seq<RuleViolation>, mid: seq<RuleViolation>, after: seq<RuleViolation>,
             added: seq<RuleViolation>, checks: seq<Check>, check: Check,
             files: map<string, seq<DockerInstruction>>,
             trusted: Option<set<string>>, packages: Option<set<string>>, patterns: Option<set<string>>,
             re: Regexp, baseImages: seq<DockerInstruction> -> seq<string>)
    returns (added': seq<RuleViolation>)
    requires mid == v0 + added
    requires Matches(added, checks, files, trusted, packages, patterns, re, baseImages)
    requires AppendedOne(mid, after, RuleOf(check))
    requires EntryHolds(check, Last(after).violations, files, trusted, packages, patterns, re, baseImages)
    ensures after == v0 + added'
    ensures Matches(added', checks + [check], files, trusted, packages, patterns, re, baseImages)
  {
    var entry := Last(after);
    assert after == after[..|mid|] + [entry];
    added' := added + [entry];
    AppendAssoc(v0, added, [entry]);
    MatchesSnoc(added, checks, entry, check, files, trusted, packages, patterns, re, baseImages);
  }

  function Last(entries: seq<RuleViolation>): RuleViolation
    requires entries != []
  {
    entries[|entries| - 1]
  }

  // ---------------------------------------------------------------- the benchmarker

  class DockerBenchmarker {
    var dfiles: map<string, Dockerfile>
    const violationReport: ViolationReport
    var trustedBaseImages: Option<set<string>>
    var disallowedPackages: Option<set<string>>
    var secretPatterns: Option<set<string>>
    /** The instructions of every registered file, by file name. */
    ghost var files: map<string, seq<DockerInstruction>>

    /**
     * Every Dockerfile is stored under its own name (so distinct names hold
     * distinct objects), and `files` records the instructions of each.
     */
    ghost predicate Valid()
      reads this, dfiles.Values
    {
      && files.Keys == dfiles.Keys
      && forall f :: f in dfiles ==> dfiles[f].file == f && dfiles[f].instructions == files[f]
    }

    /** NewDockerBenchmarker: no files, an empty report and no configuration. */
    constructor ()
      ensures Valid() && files == map[]
      ensures fresh(violationReport) && violationReport.violations == []
      ensures trustedBaseImages == None && disallowedPackages == None && secretPatterns == None
    {
      dfiles := map[];
      files := map[];
      violationReport := new ViolationReport();
      trustedBaseImages := None;
      disallowedPackages := None;
      secretPatterns := None;
    }

    /** SetTrustedBaseImages: an empty list keeps the current setting; otherwise exactly the listed images. */
    method SetTrustedBaseImages(images: seq<string>)
      modifies this`trustedBaseImages
      ensures images == [] ==> trustedBaseImages == old(trustedBaseImages)
      ensures images != [] ==> trustedBaseImages == Some(Elements(images))
    {
      if |images| == 0 {
        return;
      }
      assert Elements(images[..0]) == {};
      trustedBaseImages := Some({});
      for i := 0 to |images|
        invariant trustedBaseImages == Some(Elements(images[..i]))
      {
        ElementsSnoc(images, i);
        trustedBaseImages := Some(trustedBaseImages.value + {images[i]});
      }
      assert images[..|images|] == images;
    }

    /** SetDisallowedPackages: an empty list keeps the current setting; otherwise exactly the listed packages. */
    method SetDisallowedPackages(packages: seq<string>)
      modifies this`disallowedPackages
      ensures packages == [] ==> disallowedPackages == old(disallowedPackages)
      ensures packages != [] ==> disallowedPackages == Some(Elements(packages))
    {
      if |packages| == 0 {
        return;
      }
      assert Elements(packages[..0]) == {};
      disallowedPackages := Some({});
      for i := 0 to |packages|
        invariant disallowedPackages == Some(Elements(packages[..i]))
      {
        ElementsSnoc(packages, i);
        disallowedPackages := Some(disallowedPackages.value + {packages[i]});
      }
      assert packages[..|packages|] == packages;
    }

    /** SetSecretPattern: an empty list keeps the current setting; otherwise exactly the listed patterns. */
    method SetSecretPattern(patterns: seq<string>)
      modifies this`secretPatterns
      ensures patterns == [] ==> secretPatterns == old(secretPatterns)
      ensures patterns != [] ==> secretPatterns == Some(Elements(patterns))
    {
      if |patterns| == 0 {
        return;
      }
      assert Elements(patterns[..0]) == {};
      secretPatterns := Some({});
      for i := 0 to |patterns|
        invariant secretPatterns == Some(Elements(patterns[..i]))
      {
        ElementsSnoc(patterns, i);
        secretPatterns := Some(secretPatterns.value + {patterns[i]});
      }
      assert patterns[..|patterns|] == patterns;
    }

    /**
     * The registration part of ParseDockerfile, given the top-level nodes of
     * the parse: the file's Dockerfile is created if it is new, and one
     * instruction per node is appended to it. Existing Dockerfile objects
     * are kept and no other file changes.
     */
    method ParseDockerfile(file: string, children: seq<Node>)
      requires Valid()
      modifies this`dfiles, this`files, dfiles.Values
      ensures Valid()
      ensures files == Registered(old(files), file, children)
      ensures forall f :: f in old(dfiles) ==> f in dfiles && dfiles[f] == old(dfiles[f])
      ensures file in dfiles && (file !in old(dfiles) ==> fresh(dfiles[file]))
    {
      if file !in dfiles {
        var created := new Dockerfile(file);
        dfiles := dfiles[file := created];
      }
      var df := dfiles[file];
      AddNodes(df, children);
      files := Registered(files, file, children);
      forall f | f in dfiles
        ensures dfiles[f].file == f && dfiles[f].instructions == files[f]
      {
        if f != file {
          assert dfiles[f] != df && f in old(dfiles);
        }
      }
    }

    /** GetViolationReport: the entries collected so far. */
    function GetViolationReport(): (report: seq<RuleViolation>)
      reads this, violationReport
      ensures report == violationReport.violations
    {
      violationReport.violations
    }

    /** IsTrustedBaseImage: every image is trusted while no trusted set is configured; otherwise only its members. */
    function IsTrustedBaseImage(image: string): (trusted: bool)
      reads this
      ensures trustedBaseImages.None? ==> trusted
      ensures trustedBaseImages.Some? ==> (trusted <==> image in trustedBaseImages.value)
    {
      if trustedBaseImages.None? then true
      else image in trustedBaseImages.value
    }

    /**
     * RunBenchmark: the seven checks in the order 4.1, 4.2, 4.3, 4.6, 4.7,
     * 4.9, 4.10, each appending one entry unless it is a configurable check
     * left unconfigured. Earlier entries of the report are kept.
     */
    method RunBenchmark(re: Regexp, baseImages: seq<DockerInstruction> -> seq<string>)
      requires Valid()
      modifies violationReport
      ensures Valid()
      ensures |violationReport.violations| >= |old(violationReport.violations)|
      ensures violationReport.violations[..|old(violationReport.violations)|] == old(violationReport.violations)
      ensures Matches(violationReport.violations[|old(violationReport.violations)|..],
                      ExpectedChecks(trustedBaseImages.Some?, disallowedPackages.Some?, secretPatterns.Some?),
                      files, trustedBaseImages, disallowedPackages, secretPatterns, re, baseImages)
    {
      ghost var v0 := violationReport.violations;
      CheckNonRootUser();
      ghost var v1 := violationReport.violations;
      CheckTrustedBaseImages(baseImages);
      ghost var v2 := violationReport.violations;
      CheckDisallowedPackages(re);
      ghost var v3 := violationReport.violations;
      CheckHealthCheck();
      ghost var v4 := violationReport.violations;
      CheckRunUpdateOnly(re);
      ghost var v5 := violationReport.violations;
      CheckAdd();
      ghost var v6 := violationReport.violations;
      CheckSecretsInsideImage(re);
      RunComposition(v0, v1, v2, v3, v4, v5, v6, violationReport.violations,
                     files, trustedBaseImages, disallowedPackages, secretPatterns, re, baseImages);
    }

    /** CIS 4.1: lists, once each, the files in which no USER instruction names a non-root user. */
    method CheckNonRootUser()
      requires Valid()
      modifies violationReport
      ensures Valid()
      ensures AppendedOne(old(violationReport.violations), violationReport.violations, CIS_4_1)
      ensures ListsEachOnce(Last(violationReport.violations).violations, NonRootViolations(files))
    {
      var list := FilesWithoutNonRootUser();
      violationReport.AddViolation(CIS_4_1, list);
    }

    /** The loop of CheckNonRootUser over the files, in map order. */
    method FilesWithoutNonRootUser() returns (list: seq<string>)
      requires Valid()
      ensures ListsEachOnce(list, NonRootViolations(files))
    {
      list := [];
      ghost var violators := NonRootViolations(files);
      var order := MapOrder(dfiles.Keys);
      for i := 0 to |order|
        invariant list == Filter(order[..i], violators)
      {
        var file := order[i];
        assert file in dfiles by { assert multiset(order)[file] > 0; }
        FilterSnoc(order, i, violators);
        var created := NonRootUserFound(dfiles[file].instructions);
        if !created {
          list := list + [file];
        }
      }
      assert order[..|order|] == order;
      FilterListsEachOnce(order, dfiles.Keys, violators);
    }

    /**
     * CIS 4.2: nothing without a trusted set; otherwise lists, once each,
     * "file: image" for every base image of every file that is not trusted.
     */
    method CheckTrustedBaseImages(baseImages: seq<DockerInstruction> -> seq<string>)
      requires Valid()
      modifies violationReport
      ensures Valid()
      ensures trustedBaseImages.None? ==> violationReport.violations == old(violationReport.violations)
      ensures trustedBaseImages.Some? ==>
                && AppendedOne(old(violationReport.violations), violationReport.violations, CIS_4_2)
                && ListsEachOnce(Last(violationReport.violations).violations,
                                 TrustedImageViolations(files, baseImages, trustedBaseImages.value))
    {
      if trustedBaseImages.None? {
        return;
      }
      var violationMap := UntrustedImages(baseImages);
      var list := MapToArray(violationMap);
      violationReport.AddViolation(CIS_4_2, list);
    }

    /** The file loop of CheckTrustedBaseImages, in map order. */
    method UntrustedImages(baseImages: seq<DockerInstruction> -> seq<string>) returns (violationMap: map<string, bool>)
      requires Valid() && trustedBaseImages.Some?
      ensures violationMap.Keys == TrustedImageViolations(files, baseImages, trustedBaseImages.value)
    {
      ghost var fs, trusted := files, trustedBaseImages.value;
      ghost var perFile := f => if f in fs then UntrustedOf(f, baseImages(fs[f]), trusted) else {};
      violationMap := map[];
      var order := MapOrder(dfiles.Keys);
      for i := 0 to |order|
        invariant violationMap.Keys == UnionOver(order[..i], perFile)
      {
        var file := order[i];
        assert file in dfiles by { assert multiset(order)[file] > 0; }
        UnionOverSnoc(order, i, perFile);
        var images := baseImages(dfiles[file].instructions);
        violationMap := MarkUntrusted(violationMap, file, images);
      }
      assert order[..|order|] == order;
      ListsEachOnceSize(order, dfiles.Keys);
      UntrustedUnion(order, fs, baseImages, trusted, perFile);
    }

    /** The image loop of CheckTrustedBaseImages for one file. */
    method MarkUntrusted(violationMap: map<string, bool>, file: string, images: seq<string>) returns (m: map<string, bool>)
      requires trustedBaseImages.Some?
      ensures m.Keys == violationMap.Keys + UntrustedOf(file, images, trustedBaseImages.value)
    {
      m := violationMap;
      for j := 0 to |images|
        invariant m.Keys == violationMap.Keys + UntrustedOf(file, images[..j], trustedBaseImages.value)
      {
        UntrustedOfSnoc(file, images, j, trustedBaseImages.value);
        if !IsTrustedBaseImage(images[j]) {
          m := m[CreateViolation(file, images[j]) := true];
        }
      }
      assert images[..|images|] == images;
    }

    /**
     * CIS 4.3: nothing without a disallowed set; otherwise lists, once
     * each, "file: pkg" for every disallowed package that some RUN
     * instruction of the file installs with apt, apt-get or apk.
     */
    method CheckDisallowedPackages(re: Regexp)
      requires Valid()
      modifies violationReport
      ensures Valid()
      ensures disallowedPackages.None? ==> violationReport.violations == old(violationReport.violations)
      ensures disallowedPackages.Some? ==>
                && AppendedOne(old(violationReport.violations), violationReport.violations, CIS_4_3)
                && ListsEachOnce(Last(violationReport.violations).violations,
                                 PackageViolations(files, disallowedPackages.value, re))
    {
      if disallowedPackages.None? {
        return;
      }
      var violationMap := DisallowedInstalls(re);
      var list := MapToArray(violationMap);
      violationReport.AddViolation(CIS_4_3, list);
    }

    /** The file loop of CheckDisallowedPackages, in map order. */
    method DisallowedInstalls(re: Regexp) returns (violationMap: map<string, bool>)
      requires Valid() && disallowedPackages.Some?
      ensures violationMap.Keys == PackageViolations(files, disallowedPackages.value, re)
    {
      ghost var fs, packages := files, disallowedPackages.value;
      ghost var perFile := f => if f in fs then PackagesOf(f, fs[f], packages, re) else {};
      violationMap := map[];
      var order := MapOrder(dfiles.Keys);
      for i := 0 to |order|
        invariant violationMap.Keys == UnionOver(order[..i], perFile)
      {
        var file := order[i];
        assert file in dfiles by { assert multiset(order)[file] > 0; }
        UnionOverSnoc(order, i, perFile);
        violationMap := MarkPackages(violationMap, file, dfiles[file], re);
      }
      assert order[..|order|] == order;
      ListsEachOnceSize(order, dfiles.Keys);
      PackagesUnion(order, fs, packages, re, perFile);
    }

    /** The package loop of CheckDisallowedPackages for one file, in map order. */
    method MarkPackages(violationMap: map<string, bool>, file: string, df: Dockerfile, re: Regexp) returns (m: map<string, bool>)
      requires disallowedPackages.Some?
      ensures m.Keys == violationMap.Keys + PackagesOf(file, df.instructions, disallowedPackages.value, re)
    {
      m := violationMap;
      var order := MapOrder(disallowedPackages.value);
      for j := 0 to |order|
        invariant m.Keys == violationMap.Keys + PackagesOf(file, df.instructions, Elements(order[..j]), re)
      {
        ElementsSnoc(order, j);
        PackagesOfAdd(file, df.instructions, Elements(order[..j]), order[j], re);
        m := MarkPackage(m, file, df, order[j], re);
      }
      assert order[..|order|] == order;
      ListsEachOnceElements(order, disallowedPackages.value);
    }

    /**
     * CIS 4.10: nothing without secret patterns; otherwise lists, once
     * each, "file: ENV contains 'p'" and "file: LABEL contains 'p'" for
     * every pattern that matches a token of an ENV or LABEL instruction.
     */
    method CheckSecretsInsideImage(re: Regexp)
      requires Valid()
      modifies violationReport
      ensures Valid()
      ensures secretPatterns.None? ==> violationReport.violations == old(violationReport.violations)
      ensures secretPatterns.Some? ==>
                && AppendedOne(old(violationReport.violations), violationReport.violations, CIS_4_10)
                && ListsEachOnce(Last(violationReport.violations).violations,
                                 SecretViolations(files, secretPatterns.value, re))
    {
      if secretPatterns.None? {
        return;
      }
      var violationMap := SecretsFound(re);
      var list := MapToArray(violationMap);
      violationReport.AddViolation(CIS_4_10, list);
    }

    /** The file loop of CheckSecretsInsideImage, in map order. */
    method SecretsFound(re: Regexp) returns (violationMap: map<string, bool>)
      requires Valid() && secretPatterns.Some?
      ensures violationMap.Keys == SecretViolations(files, secretPatterns.value, re)
    {
      ghost var fs, patterns := files, secretPatterns.value;
      ghost var perFile := f => if f in fs then SecretsOf(f, fs[f], patterns, re) else {};
      violationMap := map[];
      var order := MapOrder(dfiles.Keys);
      for i := 0 to |order|
        invariant violationMap.Keys == UnionOver(order[..i], perFile)
      {
        var file := order[i];
        assert file in dfiles by { assert multiset(order)[file] > 0; }
        UnionOverSnoc(order, i, perFile);
        violationMap := MarkSecrets(violationMap, file, dfiles[file], re);
      }
      assert order[..|order|] == order;
      ListsEachOnceSize(order, dfiles.Keys);
      SecretsUnion(order, fs, patterns, re, perFile);
    }

    /** The pattern loop of CheckSecretsInsideImage for one file, in map order. */
    method MarkSecrets(violationMap: map<string, bool>, file: string, df: Dockerfile, re: Regexp) returns (m: map<string, bool>)
      requires secretPatterns.Some?
      ensures m.Keys == violationMap.Keys + SecretsOf(file, df.instructions, secretPatterns.value, re)
    {
      m := violationMap;
      var order := MapOrder(secretPatterns.value);
      for j := 0 to |order|
        invariant m.Keys == violationMap.Keys + SecretsOf(file, df.instructions, Elements(order[..j]), re)
      {
        ElementsSnoc(order, j);
        SecretsOfAdd(file, df.instructions, Elements(order[..j]), order[j], re);
        m := MarkSecret(m, file, df, order[j], re);
      }
      assert order[..|order|] == order;
      ListsEachOnceElements(order, secretPatterns.value);
    }

    /** CIS 4.6: lists, once each, the files without a HEALTHCHECK instruction. */
    method CheckHealthCheck()
      requires Valid()
      modifies violationReport
      ensures Valid()
      ensures AppendedOne(old(violationReport.violations), violationReport.violations, CIS_4_6)
      ensures ListsEachOnce(Last(violationReport.violations).violations, HealthcheckViolations(files))
    {
      var list := FilesWithoutHealthcheck();
      violationReport.AddViolation(CIS_4_6, list);
    }

    /** The loop of CheckHealthCheck over the files, in map order. */
    method FilesWithoutHealthcheck() returns (list: seq<string>)
      requires Valid()
      ensures ListsEachOnce(list, HealthcheckViolations(files))
    {
      list := [];
      ghost var violators := HealthcheckViolations(files);
      var order := MapOrder(dfiles.Keys);
      for i := 0 to |order|
        invariant list == Filter(order[..i], violators)
      {
        var file := order[i];
        assert file in dfiles by { assert multiset(order)[file] > 0; }
        FilterSnoc(order, i, violators);
        var found := dfiles[file].LookupInstruction(Healthcheck);
        if !found {
          list := list + [file];
        }
      }
      assert order[..|order|] == order;
      FilterListsEachOnce(order, dfiles.Keys, violators);
    }

    /**
     * CIS 4.7: lists each file once for each package manager (apt, apt-get,
     * apk) with a RUN instruction that matches its update pattern but not
     * its install pattern.
     */
    method CheckRunUpdateOnly(re: Regexp)
      requires Valid()
      modifies violationReport
      ensures Valid()
      ensures AppendedOne(old(violationReport.violations), violationReport.violations, CIS_4_7)
      ensures forall f :: multiset(Last(violationReport.violations).violations)[f]
                       == if f in files then UpdateOnlyCount(files[f], re) else 0
    {
      var list := UpdateOnlyFiles(re);
      violationReport.AddViolation(CIS_4_7, list);
    }

    /** The loop of CheckRunUpdateOnly over the files, in map order. */
    method UpdateOnlyFiles(re: Regexp) returns (list: seq<string>)
      requires Valid()
      ensures forall f :: multiset(list)[f] == if f in files then UpdateOnlyCount(files[f], re) else 0
    {
      list := [];
      var order := MapOrder(dfiles.Keys);
      for i := 0 to |order|
        invariant list == UpdateOnlyListed(order[..i], files, re)
      {
        var file := order[i];
        assert file in dfiles by { assert multiset(order)[file] > 0; }
        assert order[..i + 1][..i] == order[..i];
        var entries := UpdateOnlyEntries(file, dfiles[file], re);
        list := list + entries;
      }
      assert order[..|order|] == order;
      ListsEachOnceSize(order, dfiles.Keys);
      ListsEachOnceDistinct(order, dfiles.Keys);
      UpdateOnlyListedCounts(order, files, re);
    }

    /** CIS 4.9: lists, once each, the files with an ADD instruction. */
    method CheckAdd()
      requires Valid()
      modifies violationReport
      ensures Valid()
      ensures AppendedOne(old(violationReport.violations), violationReport.violations, CIS_4_9)
      ensures ListsEachOnce(Last(violationReport.violations).violations, AddViolations(files))
    {
      var list := FilesWithAdd();
      violationReport.AddViolation(CIS_4_9, list);
    }

    /** The loop of CheckAdd over the files, in map order. */
    method FilesWithAdd() returns (list: seq<string>)
      requires Valid()
      ensures ListsEachOnce(list, AddViolations(files))
    {
      list := [];
      ghost var violators := AddViolations(files);
      var order := MapOrder(dfiles.Keys);
      for i := 0 to |order|
        invariant list == Filter(order[..i], violators)
      {
        var file := order[i];
        assert file in dfiles by { assert multiset(order)[file] > 0; }
        FilterSnoc(order, i, violators);
        var found := dfiles[file].LookupInstruction(Add);
        if found {
          list := list + [file];
        }
      }
      assert order[..|order|] == order;
      FilterListsEachOnce(order, dfiles.Keys, violators);
    }
  }

  /** The body of the package loop of CheckDisallowedPackages: the apt, apt-get and apk lookups for `pkg`. */
  method MarkPackage(violationMap: map<string, bool>, file: string, df: Dockerfile, pkg: string, re: Regexp)
    returns (m: map<string, bool>)
    ensures m.Keys == violationMap.Keys + (if InstallsPackage(df.instructions, pkg, re) then {CreateViolation(file, pkg)} else {})
  {
    m := violationMap;
    var idxs := df.LookupInstructionAndContent(Run, AptInstallPrefix + pkg, re);
    if |idxs| > 0 {
      m := m[CreateViolation(file, pkg) := true];
    }
    idxs := df.LookupInstructionAndContent(Run, AptGetInstallPrefix + pkg, re);
    if |idxs| > 0 {
      m := m[CreateViolation(file, pkg) := true];
    }
    idxs := df.LookupInstructionAndContent(Run, ApkAddPrefix + pkg, re);
    if |idxs| > 0 {
      m := m[CreateViolation(file, pkg) := true];
    }
  }

  /** The body of the pattern loop of CheckSecretsInsideImage: the ENV and LABEL lookups for `pattern`. */
  method MarkSecret(violationMap: map<string, bool>, file: string, df: Dockerfile, pattern: string, re: Regexp)
    returns (m: map<string, bool>)
    ensures m.Keys == violationMap.Keys + SecretHits(file, df.instructions, pattern, re)
  {
    m := violationMap;
    var idxs := df.LookupInstructionAndContent(Env, pattern, re);
    if |idxs| > 0 {
      m := m[CreateViolation(file, EnvDetail(pattern)) := true];
    }
    idxs := df.LookupInstructionAndContent(Label, pattern, re);
    if |idxs| > 0 {
      m := m[CreateViolation(file, LabelDetail(pattern)) := true];
    }
  }

  /** The body of the file loop of CheckRunUpdateOnly: the entries appended for `file`. */
  method UpdateOnlyEntries(file: string, df: Dockerfile, re: Regexp) returns (entries: seq<string>)
    ensures entries == Triggered(file, df.instructions, re)
  {
    entries := [];
    var apt := PairTriggers(df, AptUpdate, AptInstall, re);
    if apt {
      entries := entries + [file];
    }
    var aptGet := PairTriggers(df, AptGetUpdate, AptGetInstall, re);
    if aptGet {
      entries := entries + [file];
    }
    var apk := PairTriggers(df, ApkUpdate, ApkAdd, re);
    if apk {
      entries := entries + [file];
    }
  }

  /**
   * One update/install pair of CheckRunUpdateOnly: the RUN positions
   * matching `update` of which none matches `install`, via diffArray.
   */
  method PairTriggers(df: Dockerfile, update: string, install: string, re: Regexp) returns (trigger: bool)
    ensures trigger <==> UpdateOnly(df.instructions, update, install, re)
  {
    var updateIdxs := df.LookupInstructionAndContent(Run, update, re);
    var installIdx := df.LookupInstructionAndContent(Run, install, re);
    var updateOnly, _ := DiffArray(updateIdxs, installIdx);
    DiffNonEmpty(updateIdxs, installIdx, updateOnly,
                 MatchSet(df.instructions, Run, update, re), MatchSet(df.instructions, Run, install, re));
    trigger := |updateOnly| > 0;
  }

  /** The first result of diffArray is non-empty exactly when some element of `a` is missing from `b`. */
  lemma DiffNonEmpty(a: seq<int>, b: seq<int>, diff: seq<int>, sa: set<int>, sb: set<int>)
    requires forall x :: x in a <==> x in sa
    requires forall x :: x in b <==> x in sb
    requires ListsEachOnce(diff, Elements(a) - Elements(b))
    ensures |diff| > 0 <==> sa - sb != {}
  {
    ListsEachOnceSize(diff, Elements(a) - Elements(b));
    if |diff| > 0 {
      var x := diff[0];
      assert x in Elements(a) - Elements(b);
      assert x in a && x !in b;
      assert x in sa - sb;
    }
    if sa - sb != {} {
      var x := SomeElement(sa - sb);
      assert x in diff;
    }
  }

  /** The inner loop of CheckNonRootUser: stops at the first USER instruction naming a non-root user. */
  method NonRootUserFound(instructions: seq<DockerInstruction>) returns (created: bool)
    ensures created <==> NonRootUserCreated(instructions)
  {
    created := false;
    for k := 0 to |instructions|
      invariant !created && !NonRootUserCreated(instructions[..k])
    {
      var di := instructions[k];
      if di.instruction == User && |di.content| > 0 {
        var content := ToLower(di.content[0]);
        if UserPasses(content) {
          assert CreatesNonRootUser(instructions[k]);
          created := true;
          return;
        }
      }
      assert !CreatesNonRootUser(instructions[k]);
      assert instructions[..k + 1] == instructions[..k] + [di];
    }
    assert instructions[..|instructions|] == instructions;
  }

  /** The loop of ParseDockerfile: AddNode for each top-level node of the parse, in order. */
  method AddNodes(df: Dockerfile, children: seq<Node>)
    modifies df
    ensures df.instructions == old(df.instructions) + Converted(children)
  {
    for i := 0 to |children|
      invariant df.instructions == old(df.instructions) + Converted(children[..i])
    {
      df.AddNode(children[i]);
      assert children[..i + 1] == children[..i] + [children[i]];
      assert Converted(children[..i + 1]) == Converted(children[..i]) + [FromNode(children[i])];
    }
    assert children[..|children|] == children;
  }
}
