// Assembling a plugin marketplace: unique plugin names and one file map
// (packages/plugin-gen/src/marketplace.ts, plugin.ts).
module Marketplace {
  import opened Prelude
  import opened Naming

  // ---------- uniquify ----------

  // The n-th name tried for a taken one: the first has no number.
  function Candidate(name: string, hex: string, n: nat): string {
    BoundedSuffix(name, if n <= 1 then hex else hex + ['-'] + Decimal(n), MAX_PLUGIN_NAME)
  }

  // Numbered candidates differ: each ends in its own number.
  lemma CandidatesDiffer(name: string, hex: string, m: nat, n: nat)
    requires 2 <= m && 2 <= n && Candidate(name, hex, m) == Candidate(name, hex, n)
    ensures m == n
  {
    CandidateLastWord(name, hex, m);
    CandidateLastWord(name, hex, n);
    DecimalInjective(m, n);
  }

  lemma CandidateLastWord(name: string, hex: string, n: nat)
    requires 2 <= n
    ensures LastWord(Candidate(name, hex, n)) == Decimal(n)
  {
    var suffix := hex + ['-'] + Decimal(n);
    var c := Candidate(name, hex, n);
    var base := c[..|c| - |suffix| - 1];
    assert c == base + ['-'] + suffix;
    assert c == (base + ['-'] + hex) + ['-'] + Decimal(n);
    LastWordOf(base + ['-'] + hex, Decimal(n));
  }

  // A subset is no larger than its set.
  lemma {:induction false} SubsetSize<T>(a: set<T>, b: set<T>)
    requires a <= b
    ensures |a| <= |b|
  {
    if a != {} {
      var x :| x in a;
      SubsetSize(a - {x}, b - {x});
    }
  }

  // The numbered candidates below n, all met in use, are n - 2 different names.
  ghost predicate Met(met: set<string>, used: set<string>, name: string, hex: string, n: nat) {
    && met <= used
    && |met| == (if n <= 2 then 0 else n - 2)
    && forall c | c in met :: exists k :: 2 <= k < n && c == Candidate(name, hex, k)
  }

  lemma MeetOne(met: set<string>, used: set<string>, name: string, hex: string, n: nat) returns (more: set<string>)
    requires 1 <= n && Met(met, used, name, hex, n) && Candidate(name, hex, n) in used
    ensures Met(more, used, name, hex, n + 1) && n <= |used| + 1
  {
    var c := Candidate(name, hex, n);
    more := met;
    if 2 <= n {
      if c in met {
        var k :| 2 <= k < n && c == Candidate(name, hex, k);
        CandidatesDiffer(name, hex, k, n);
        assert false;
      }
      more := met + {c};
    }
    SubsetSize(more, used);
  }

  // The loop ends for every set of used names: it can meet each of them under one number only. The
  // result is the first candidate not in use.
  method Uniquify(name: string, used: set<string>, resourceId: string) returns (unique: string, ghost tries: nat)
    ensures unique !in used
    ensures name !in used ==> unique == name
    ensures name in used ==> 1 <= tries <= |used| + 2 && unique == Candidate(name, HexOf(resourceId), tries)
    ensures name in used ==> forall k | 1 <= k < tries :: Candidate(name, HexOf(resourceId), k) in used
  {
    hide Candidate, HexOf, Met;
    tries := 0;
    if name !in used {
      return name, tries;
    }
    var hex := HexOf(resourceId);
    var candidate := Candidate(name, hex, 1);
    tries := 1;
    var n := 2;
    ghost var met: set<string> := {};
    assert Met(met, used, name, hex, 1) by { NoneMet(used, name, hex); }
    while candidate in used
      invariant 1 <= tries <= |used| + 2 && n == tries + 1
      invariant candidate == Candidate(name, hex, tries)
      invariant forall k | 1 <= k < tries :: Candidate(name, hex, k) in used
      invariant Met(met, used, name, hex, tries)
      decreases |used| + 2 - tries
    {
      met := MeetOne(met, used, name, hex, tries);
      candidate := Candidate(name, hex, n);
      tries := n;
      n := n + 1;
    }
    return candidate, tries;
  }

  lemma NoneMet(used: set<string>, name: string, hex: string)
    ensures Met({}, used, name, hex, 1)
  {
  }

  // For a well-formed id and any realistic number of names, the result is a valid plugin name.
  lemma UniqueNameIsValid(slug: string, resourceId: string, tries: nat)
    requires IsBytes32(resourceId) && tries <= 0x1_0000_0002
    ensures IsValidPluginName(Candidate(PluginNameForResource(slug), HexOf(resourceId), tries))
  {
    var name, hex := PluginNameForResource(slug), HexOf(resourceId);
    PluginNameIsValid(slug);
    HexIsWord(resourceId);
    if tries <= 1 {
      BoundedSuffixIsKebab(name, hex, MAX_PLUGIN_NAME);
    } else {
      DigitsAreWord(tries);
      BoundedSuffixIsKebab(name, hex + ['-'] + Decimal(tries), MAX_PLUGIN_NAME);
    }
  }

  lemma DigitsAreWord(n: nat)
    requires n <= 0x1_0000_0002
    ensures IsKebab(Decimal(n)) && |Decimal(n)| <= 10
  {
    assert Pow10(10) == 10_000_000_000;
    DecimalLength(n, 10);
  }

  // ---------- buildMarketplace ----------

  datatype Resource = Resource(slug: string, resourceId: string)

  datatype Content = PluginFile(name: string, rel: string) | Manifest(entries: seq<Entry>)

  datatype Entry = Entry(name: string, source: string)

  const RESERVED: set<string> := {
    "claude-code-marketplace", "claude-code-plugins", "claude-plugins-official", "claude-plugins-community",
    "claude-community", "anthropic-marketplace", "anthropic-plugins", "agent-skills", "anthropic-agent-skills",
    "knowledge-work-plugins", "life-sciences", "claude-for-legal", "claude-for-financial-services",
    "financial-services-plugins", "first-party-plugins", "healthcare"}

  const MANIFEST_PATH := ".claude-plugin/marketplace.json"
  const BASE_NAME := "utter-buyer"

  function DropSlashes(s: string): string {
    if s != [] && s[|s| - 1] == '/' then DropSlashes(s[..|s| - 1]) else s
  }

  function PluginRootPrefix(pluginRoot: string): string {
    DropSlashes(if "./" <= pluginRoot then pluginRoot[2..] else pluginRoot)
  }

  function PluginSource(pluginRoot: string, name: string): string {
    var root := DropSlashes(pluginRoot);
    (if "./" <= root || "../" <= root then root else "./" + root) + "/" + name
  }

  function SkillDirForResource(slug: string): string { ToKebab(slug, 60, "endpoint") }

  function BaseFiles(): seq<string> {
    [".claude-plugin/plugin.json", "skills/using-utter/SKILL.md", "commands/discover.md", "README.md"]
  }

  function EndpointFiles(slug: string): seq<string> {
    [".claude-plugin/plugin.json", "skills/" + SkillDirForResource(slug) + "/SKILL.md", "README.md"]
  }

  function Path(prefix: string, name: string, rel: string): string {
    prefix + ['/'] + (name + ['/'] + rel)
  }

  type Files = map<string, Content>

  // The file keys of one plugin.
  function Paths(prefix: string, name: string, rels: seq<string>): set<string> {
    set i | 0 <= i < |rels| :: Path(prefix, name, rels[i])
  }

  predicate Distinct(xs: seq<string>) {
    forall i, j | 0 <= i < j < |xs| :: xs[i] != xs[j]
  }

  lemma PathInjective(prefix: string, name: string, rel: string, name': string, rel': string)
    requires '/' !in name && '/' !in name'
    requires Path(prefix, name, rel) == Path(prefix, name', rel')
    ensures name == name' && rel == rel'
  {
    var a, b := Path(prefix, name, rel), Path(prefix, name', rel');
    assert name + ['/'] + rel == a[|prefix| + 1..] == b[|prefix| + 1..] == name' + ['/'] + rel';
    SplitUnique(name, rel, name', rel', '/');
  }

  // A plugin file has at least two slashes in its path; the manifest's path has one.
  lemma PathIsNotManifest(prefix: string, name: string, rel: string)
    ensures Path(prefix, name, rel) != MANIFEST_PATH
  {
    var p := Path(prefix, name, rel);
    assert p[|prefix|] == '/' && p[|prefix| + 1 + |name|] == '/';
    assert forall i | 0 <= i < |MANIFEST_PATH| && MANIFEST_PATH[i] == '/' :: i == 14;
  }

  lemma KebabHasNoSlash(name: string)
    requires IsKebab(name)
    ensures '/' !in name
  {
  }

  lemma PathsSnoc(prefix: string, name: string, rels: seq<string>, j: nat)
    requires '/' !in name && Distinct(rels) && j < |rels|
    ensures Paths(prefix, name, rels[..j + 1]) == Paths(prefix, name, rels[..j]) + {Path(prefix, name, rels[j])}
    ensures Path(prefix, name, rels[j]) !in Paths(prefix, name, rels[..j])
    ensures forall i | 0 <= i < j :: Path(prefix, name, rels[i]) != Path(prefix, name, rels[j])
  {
    hide Path;
    forall i | 0 <= i < j ensures Path(prefix, name, rels[i]) != Path(prefix, name, rels[j]) {
      if Path(prefix, name, rels[i]) == Path(prefix, name, rels[j]) {
        PathInjective(prefix, name, rels[i], name, rels[j]);
      }
    }
  }

  predicate Holds(files: Files, prefix: string, name: string, rel: string) {
    Path(prefix, name, rel) in files && files[Path(prefix, name, rel)] == PluginFile(name, rel)
  }

  // r is the map files with the first j of a plugin's files added beside what was there.
  ghost predicate Added(files: Files, r: Files, prefix: string, name: string, rels: seq<string>, j: nat)
    requires j <= |rels|
  {
    && r.Keys == files.Keys + Paths(prefix, name, rels[..j])
    && |r| == |files| + j
    && (forall k | k in files :: r[k] == files[k])
    && (forall i | 0 <= i < j :: Holds(r, prefix, name, rels[i]))
  }

  lemma HoldsStays(r: Files, prefix: string, name: string, rel: string, key: string, content: Content)
    requires Holds(r, prefix, name, rel) && key !in r
    ensures Holds(r[key := content], prefix, name, rel)
  {
    hide Path;
  }

  lemma AddOneHolds(r: Files, prefix: string, name: string, rels: seq<string>, j: nat)
    requires j < |rels| && Path(prefix, name, rels[j]) !in r
    requires forall i | 0 <= i < j :: Holds(r, prefix, name, rels[i])
    ensures forall i | 0 <= i < j + 1 ::
              Holds(r[Path(prefix, name, rels[j]) := PluginFile(name, rels[j])], prefix, name, rels[i])
  {
    hide Path, Holds;
    var key := Path(prefix, name, rels[j]);
    forall i | 0 <= i < j + 1 ensures Holds(r[key := PluginFile(name, rels[j])], prefix, name, rels[i]) {
      if i < j {
        HoldsStays(r, prefix, name, rels[i], key, PluginFile(name, rels[j]));
      } else {
        NewHolds(r, prefix, name, rels[j]);
      }
    }
  }

  lemma AddOne(files: Files, r: Files, prefix: string, name: string, rels: seq<string>, j: nat)
    requires '/' !in name && Distinct(rels) && j < |rels|
    requires Path(prefix, name, rels[j]) !in files
    requires Added(files, r, prefix, name, rels, j)
    ensures Added(files, r[Path(prefix, name, rels[j]) := PluginFile(name, rels[j])], prefix, name, rels, j + 1)
  {
    hide Path, Paths, Holds, Distinct;
    var key := Path(prefix, name, rels[j]);
    assert key !in r && r.Keys == files.Keys + Paths(prefix, name, rels[..j]) by {
      PathsSnoc(prefix, name, rels, j);
    }
    AddOneHolds(r, prefix, name, rels, j);
    PutFresh(r, key, PluginFile(name, rels[j]), files.Keys, Paths(prefix, name, rels[..j]));
    assert Paths(prefix, name, rels[..j + 1]) == Paths(prefix, name, rels[..j]) + {key} by {
      PathsSnoc(prefix, name, rels, j);
    }
  }

  lemma PutFresh(r: Files, key: string, content: Content, a: set<string>, b: set<string>)
    requires r.Keys == a + b && key !in r
    ensures r[key := content].Keys == a + (b + {key}) && |r[key := content]| == |r| + 1
    ensures forall k | k in r :: r[key := content][k] == r[k]
  {
  }

  lemma NewHolds(r: Files, prefix: string, name: string, rel: string)
    ensures Holds(r[Path(prefix, name, rel) := PluginFile(name, rel)], prefix, name, rel)
  {
  }

  // Writes one plugin's files into the map, over none that is there.
  method AddFiles(files: Files, prefix: string, name: string, rels: seq<string>) returns (r: Files)
    requires '/' !in name && Distinct(rels)
    requires forall rel :: Path(prefix, name, rel) !in files
    ensures Added(files, r, prefix, name, rels, |rels|)
  {
    hide Added, Path;
    r := files;
    assert Added(files, r, prefix, name, rels, 0) by { NoneAdded(files, prefix, name, rels); }
    for j := 0 to |rels|
      invariant Added(files, r, prefix, name, rels, j)
    {
      AddOne(files, r, prefix, name, rels, j);
      r := r[Path(prefix, name, rels[j]) := PluginFile(name, rels[j])];
    }
  }

  lemma NoneAdded(files: Files, prefix: string, name: string, rels: seq<string>)
    ensures Added(files, files, prefix, name, rels, 0)
  {
  }

  function TotalFiles(rels: seq<seq<string>>): nat {
    if rels == [] then 0 else TotalFiles(rels[..|rels| - 1]) + |rels[|rels| - 1]|
  }

  ghost predicate Owned(names: seq<string>, prefix: string, key: string) {
    exists i, rel :: 0 <= i < |names| && key == Path(prefix, names[i], rel)
  }

  // Plugins with distinct valid names, each with all its own files, and nothing else in the map.
  ghost predicate Assembled(files: Files, names: seq<string>, prefix: string, rels: seq<seq<string>>) {
    && |names| == |rels|
    && Distinct(names)
    && (forall i | 0 <= i < |names| :: IsValidPluginName(names[i]))
    && (forall key | key in files :: Owned(names, prefix, key))
    && |files| == TotalFiles(rels)
    && (forall i, j | 0 <= i < |names| && 0 <= j < |rels[i]| :: Holds(files, prefix, names[i], rels[i][j]))
  }

  lemma FreshPaths(files: Files, names: seq<string>, prefix: string, rels: seq<seq<string>>, name: string)
    requires Assembled(files, names, prefix, rels) && IsKebab(name) && name !in names
    ensures forall rel :: Path(prefix, name, rel) !in files
  {
    hide Path, Holds;
    forall rel ensures Path(prefix, name, rel) !in files {
      if Path(prefix, name, rel) in files {
        var i, rel' :| 0 <= i < |names| && Path(prefix, name, rel) == Path(prefix, names[i], rel');
        KebabHasNoSlash(name);
        KebabHasNoSlash(names[i]);
        PathInjective(prefix, name, rel, names[i], rel');
        assert false;
      }
    }
  }

  lemma OwnedMore(names: seq<string>, prefix: string, key: string, name: string)
    requires Owned(names, prefix, key)
    ensures Owned(names + [name], prefix, key)
  {
    var i, rel :| 0 <= i < |names| && key == Path(prefix, names[i], rel);
    assert (names + [name])[i] == names[i];
  }

  lemma OwnedNew(names: seq<string>, prefix: string, name: string, rels: seq<string>, key: string)
    requires key in Paths(prefix, name, rels)
    ensures Owned(names + [name], prefix, key)
  {
    var i :| 0 <= i < |rels| && key == Path(prefix, name, rels[i]);
    assert (names + [name])[|names|] == name;
  }

  lemma AssembledMore(files: Files, r: Files, names: seq<string>, prefix: string, rels: seq<seq<string>>,
                      name: string, more: seq<string>)
    requires Assembled(files, names, prefix, rels)
    requires IsValidPluginName(name) && name !in names
    requires Added(files, r, prefix, name, more, |more|)
    ensures Assembled(r, names + [name], prefix, rels + [more])
  {
    hide Path, Paths, IsValidPluginName;
    var names', rels' := names + [name], rels + [more];
    assert more[..|more|] == more;
    assert rels'[..|rels|] == rels;
    forall key | key in r ensures Owned(names', prefix, key) {
      if key in files {
        OwnedMore(names, prefix, key, name);
      } else {
        OwnedNew(names, prefix, name, more, key);
      }
    }
    forall i, j | 0 <= i < |names'| && 0 <= j < |rels'[i]| ensures Holds(r, prefix, names'[i], rels'[i][j]) {
      if i < |names| {
        assert Holds(files, prefix, names[i], rels[i][j]);
      }
    }
  }

  lemma BaseFilesDistinct()
    ensures Distinct(BaseFiles()) && IsValidPluginName(BASE_NAME)
  {
    assert BaseFiles()[0][0] == '.' && BaseFiles()[1][0] == 's' && BaseFiles()[2][0] == 'c' && BaseFiles()[3][0] == 'R';
  }

  lemma EndpointFilesDistinct(slug: string)
    ensures Distinct(EndpointFiles(slug)) && |EndpointFiles(slug)| == 3
  {
    var f := EndpointFiles(slug);
    assert f[0][0] == '.' && f[1][0] == 's' && f[2][0] == 'R';
  }

  datatype Built = Built(files: Files, pluginNames: seq<string>, entries: seq<Entry>)

  predicate NameAccepted(marketplaceName: string) {
    IsKebab(marketplaceName) && marketplaceName !in RESERVED
  }

  predicate AllWellFormed(resources: seq<Resource>) {
    forall i | 0 <= i < |resources| :: IsBytes32(resources[i].resourceId)
  }

  // The files every plugin must bring, in order.
  function AllFiles(resources: seq<Resource>, includeBase: bool): seq<seq<string>> {
    (if includeBase then [BaseFiles()] else [])
      + seq(|resources|, i requires 0 <= i < |resources| => EndpointFiles(resources[i].slug))
  }

  // Every plugin brings its manifest, its readme and a skill under a directory of its own.
  lemma PluginsAreWhole(resources: seq<Resource>, includeBase: bool, i: nat) returns (dir: string)
    requires i < |AllFiles(resources, includeBase)|
    ensures var rels := AllFiles(resources, includeBase)[i];
            && ".claude-plugin/plugin.json" in rels && "README.md" in rels
            && "skills/" + dir + "/SKILL.md" in rels && IsKebab(dir) && |dir| <= 60
  {
    hide ToKebab, BaseFiles, EndpointFiles, IsKebab;
    if includeBase && i == 0 {
      dir := BaseIsWhole();
    } else {
      dir := EndpointIsWhole(resources[if includeBase then i - 1 else i].slug);
    }
  }

  lemma BaseIsWhole() returns (dir: string)
    ensures ".claude-plugin/plugin.json" in BaseFiles() && "README.md" in BaseFiles()
    ensures "skills/" + dir + "/SKILL.md" in BaseFiles() && IsKebab(dir) && |dir| <= 60
  {
    dir := "using-utter";
    assert BaseFiles()[0] == ".claude-plugin/plugin.json" && BaseFiles()[3] == "README.md";
    assert BaseFiles()[1] == "skills/" + dir + "/SKILL.md";
  }

  lemma EndpointIsWhole(slug: string) returns (dir: string)
    ensures ".claude-plugin/plugin.json" in EndpointFiles(slug) && "README.md" in EndpointFiles(slug)
    ensures "skills/" + dir + "/SKILL.md" in EndpointFiles(slug) && IsKebab(dir) && |dir| <= 60
  {
    hide ToKebab;
    dir := SkillDirForResource(slug);
    var f := EndpointFiles(slug);
    assert f[0] == ".claude-plugin/plugin.json" && f[1] == "skills/" + dir + "/SKILL.md" && f[2] == "README.md";
    assert IsKebab("endpoint");
    ToKebabIsKebab(slug, 60, "endpoint");
  }

  function EntriesFor(names: seq<string>, pluginRoot: string): seq<Entry> {
    seq(|names|, i requires 0 <= i < |names| => Entry(names[i], PluginSource(pluginRoot, names[i])))
  }

  // A resource's plugin has the name of its slug, or where that is taken the first suffixed one that
  // is not.
  ghost predicate IsChosen(name: string, taken: seq<string>, resource: Resource) {
    var natural, hex := PluginNameForResource(resource.slug), HexOf(resource.resourceId);
    && name !in taken
    && (natural !in taken ==> name == natural)
    && (natural in taken ==> exists n :: IsFirstFree(name, taken, natural, hex, n))
  }

  ghost predicate IsFirstFree(name: string, taken: seq<string>, natural: string, hex: string, n: nat) {
    1 <= n && name == Candidate(natural, hex, n) && forall k | 1 <= k < n :: Candidate(natural, hex, k) in taken
  }

  // The base plugin's name first, if there is one, then one chosen for each resource in order.
  ghost predicate AreChosen(names: seq<string>, resources: seq<Resource>, includeBase: bool) {
    && |names| == |resources| + FirstOwn(includeBase)
    && (includeBase ==> names[0] == "utter-buyer")
    && forall k: nat | k < |resources| :: ChosenAt(names, resources, FirstOwn(includeBase), k)
  }

  function FirstOwn(includeBase: bool): nat { if includeBase then 1 else 0 }

  ghost predicate ChosenAt(names: seq<string>, resources: seq<Resource>, first: nat, k: nat) {
    first + k < |names| && k < |resources| && IsChosen(names[first + k], names[..first + k], resources[k])
  }

  lemma MakesChosen(name: string, taken: seq<string>, resource: Resource, tries: nat)
    requires name !in taken
    requires var natural, hex := PluginNameForResource(resource.slug), HexOf(resource.resourceId);
             if natural !in taken then name == natural else IsFirstFree(name, taken, natural, hex, tries)
    ensures IsChosen(name, taken, resource)
  {
  }

  lemma ChosenMore(names: seq<string>, resources: seq<Resource>, includeBase: bool, k: nat, name: string)
    requires k < |resources| && AreChosen(names, resources[..k], includeBase) && IsChosen(name, names, resources[k])
    ensures AreChosen(names + [name], resources[..k + 1], includeBase)
  {
    hide IsChosen;
    var first, more, upTo := FirstOwn(includeBase), names + [name], resources[..k + 1];
    forall j: nat | j < |upTo| ensures ChosenAt(more, upTo, first, j) {
      assert more[..first + j] == names[..first + j];
      assert j < k ==> ChosenAt(names, resources[..k], first, j);
    }
  }

  // None is a refused marketplace name or a malformed resource id; nothing else can fail: the name
  // check of buildEndpointPlugin never refuses a name the loop chose. The bound is the length limit
  // of an array (section 10.4.2 of ECMA-262).
  method BuildMarketplace(resources: seq<Resource>, marketplaceName: string, pluginRoot: string, includeBase: bool)
    returns (r: Option<Built>)
    requires |resources| <= 0xFFFF_FFFF
    ensures r.Some? <==> NameAccepted(marketplaceName) && AllWellFormed(resources)
    ensures r.Some? ==> Distinct(r.value.pluginNames)
                        && forall i | 0 <= i < |r.value.pluginNames| :: IsValidPluginName(r.value.pluginNames[i])
    ensures r.Some? ==> AreChosen(r.value.pluginNames, resources, includeBase)
    ensures r.Some? ==> |r.value.pluginNames| == |AllFiles(resources, includeBase)|
                        && forall i, j | 0 <= i < |r.value.pluginNames| && 0 <= j < |AllFiles(resources, includeBase)[i]| ::
                             Holds(r.value.files, PluginRootPrefix(pluginRoot), r.value.pluginNames[i],
                                   AllFiles(resources, includeBase)[i][j])
    ensures r.Some? ==> |r.value.files| == TotalFiles(AllFiles(resources, includeBase)) + 1
    ensures r.Some? ==> r.value.entries == EntriesFor(r.value.pluginNames, pluginRoot)
                        && MANIFEST_PATH in r.value.files
                        && r.value.files[MANIFEST_PATH] == Manifest(r.value.entries)
  {
    hide Path, Assembled, Added, IsValidPluginName, IsKebab, BaseFiles, EndpointFiles, Holds, IsBytes32, HexOf, Candidate,
      PluginNameForResource, PluginSource, Distinct, IsChosen;
    if !IsKebab(marketplaceName) || marketplaceName in RESERVED {
      return None;
    }
    var prefix := PluginRootPrefix(pluginRoot);
    var files: Files := map[];
    var names: seq<string> := [];
    var used: set<string> := {};
    var entries: seq<Entry> := [];
    ghost var rels: seq<seq<string>> := [];
    NothingAssembled(prefix);
    if includeBase {
      BaseFilesDistinct();
      files, names, used, entries := AddPlugin(files, names, used, entries, prefix, pluginRoot, BASE_NAME, BaseFiles(), rels);
      rels := rels + [BaseFiles()];
    }
    for k := 0 to |resources|
      invariant Assembled(files, names, prefix, rels)
      invariant used == (set n | n in names) && entries == EntriesFor(names, pluginRoot)
      invariant rels == AllFiles(resources[..k], includeBase)
      invariant |names| == |rels| <= k + 1
      invariant AreChosen(names, resources[..k], includeBase)
      invariant AllWellFormed(resources[..k])
    {
      var resource := resources[k];
      var natural := PluginNameForResource(resource.slug);
      var finalName, tries := Uniquify(natural, used, resource.resourceId);
      if !IsBytes32(resource.resourceId) {
        return None;
      }
      PluginNameIsValid(resource.slug);
      MakesChosen(finalName, names, resource, tries);
      ChosenMore(names, resources, includeBase, k, finalName);
      UsedSize(names, used);
      if natural in used {
        UniqueNameIsValid(resource.slug, resource.resourceId, tries);
      }
      EndpointFilesDistinct(resource.slug);
      files, names, used, entries :=
        AddPlugin(files, names, used, entries, prefix, pluginRoot, finalName, EndpointFiles(resource.slug), rels);
      rels := rels + [EndpointFiles(resource.slug)];
      AllFilesSnoc(resources, includeBase, k);
    }
    assert resources[..|resources|] == resources;
    ManifestIsFresh(files, names, prefix, rels);
    AddManifest(files, names, prefix, rels, entries);
    r := Some(Built(files[MANIFEST_PATH := Manifest(entries)], names, entries));
  }

  // One plugin's name, files and manifest entry; the source's addPlugin closure.
  method AddPlugin(files: Files, names: seq<string>, used: set<string>, entries: seq<Entry>, prefix: string,
                   pluginRoot: string, name: string, more: seq<string>, ghost rels: seq<seq<string>>)
    returns (files': Files, names': seq<string>, used': set<string>, entries': seq<Entry>)
    requires Assembled(files, names, prefix, rels)
    requires used == (set n | n in names) && entries == EntriesFor(names, pluginRoot)
    requires IsValidPluginName(name) && name !in used && Distinct(more)
    ensures Assembled(files', names', prefix, rels + [more])
    ensures names' == names + [name] && used' == (set n | n in names') && entries' == EntriesFor(names', pluginRoot)
  {
    hide Path, Assembled, Added, Tidy, PluginSource;
    used' := used + {name};
    names' := names + [name];
    FreshPaths(files, names, prefix, rels, name);
    KebabHasNoSlash(name);
    files' := AddFiles(files, prefix, name, more);
    entries' := entries + [Entry(name, PluginSource(pluginRoot, name))];
    AssembledMore(files, files', names, prefix, rels, name, more);
  }

  lemma NothingAssembled(prefix: string)
    ensures Assembled(map[], [], prefix, [])
  {
  }

  lemma {:induction false} UsedSize(names: seq<string>, used: set<string>)
    requires used == set n | n in names
    ensures |used| <= |names|
  {
    if names == [] {
      assert used == {};
    } else {
      var front := names[..|names| - 1];
      var rest := set n | n in front;
      UsedSize(front, rest);
      assert names == front + [names[|names| - 1]];
      assert used == rest + {names[|names| - 1]};
    }
  }

  lemma AllFilesSnoc(resources: seq<Resource>, includeBase: bool, k: nat)
    requires k < |resources|
    ensures AllFiles(resources[..k + 1], includeBase)
         == AllFiles(resources[..k], includeBase) + [EndpointFiles(resources[k].slug)]
    ensures resources[..k + 1] == resources[..k] + [resources[k]]
  {
    hide EndpointFiles, BaseFiles;
    assert resources[..k + 1][..k] == resources[..k];
  }

  lemma ManifestIsFresh(files: Files, names: seq<string>, prefix: string, rels: seq<seq<string>>)
    requires Assembled(files, names, prefix, rels)
    ensures MANIFEST_PATH !in files
  {
    hide Path;
    if MANIFEST_PATH in files {
      var i, rel :| 0 <= i < |names| && MANIFEST_PATH == Path(prefix, names[i], rel);
      PathIsNotManifest(prefix, names[i], rel);
      assert false;
    }
  }

  lemma AddManifest(files: Files, names: seq<string>, prefix: string, rels: seq<seq<string>>, entries: seq<Entry>)
    requires Assembled(files, names, prefix, rels) && MANIFEST_PATH !in files
    ensures var r := files[MANIFEST_PATH := Manifest(entries)];
            && |names| == |rels| && Distinct(names)
            && (forall i | 0 <= i < |names| :: IsValidPluginName(names[i]))
            && |r| == TotalFiles(rels) + 1
            && forall i, j | 0 <= i < |names| && 0 <= j < |rels[i]| :: Holds(r, prefix, names[i], rels[i][j])
  {
    hide Path;
    forall i, j | 0 <= i < |names| && 0 <= j < |rels[i]|
      ensures Holds(files[MANIFEST_PATH := Manifest(entries)], prefix, names[i], rels[i][j])
    {
      HoldsStays(files, prefix, names[i], rels[i][j], MANIFEST_PATH, Manifest(entries));
    }
  }

  // Four files of the base plugin, three of each endpoint, and the manifest beside them.
  lemma {:induction false} FileCount(resources: seq<Resource>, includeBase: bool)
    ensures TotalFiles(AllFiles(resources, includeBase)) == 3 * |resources| + if includeBase then 4 else 0
  {
    var all := AllFiles(resources, includeBase);
    if resources == [] {
      assert all == if includeBase then [BaseFiles()] else [];
      assert includeBase ==> all[..0] == [];
    } else {
      var k := |resources| - 1;
      AllFilesSnoc(resources, includeBase, k);
      assert resources[..k + 1] == resources;
      FileCount(resources[..k], includeBase);
      assert all[..|all| - 1] == AllFiles(resources[..k], includeBase);
      EndpointFilesDistinct(resources[k].slug);
    }
  }
}
