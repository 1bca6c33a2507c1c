// Where a marketplace's files end up on disk (packages/plugin-gen/src/write.ts), and that its
// manifest points there (packages/plugin-gen/src/marketplace.ts).
module DiskLayout {
  import opened Prelude
  import opened Naming
  import opened Marketplace

  predicate IsSeparator(c: char) { c == '/' || c == '\\' }

  // The texts between separators, empty ones included.
  function Split(s: string): (parts: seq<string>)
    ensures |parts| > 0
  {
    if s == "" then [""]
    else
      var front, c := Split(s[..|s| - 1]), s[|s| - 1];
      if IsSeparator(c) then front + [""] else front[|front| - 1 := front[|front| - 1] + [c]]
  }

  // Empty segments and "." name no directory of their own.
  function Named(parts: seq<string>): seq<string> {
    if parts == [] then []
    else
      var front, last := Named(parts[..|parts| - 1]), parts[|parts| - 1];
      if last == "" || last == "." then front else front + [last]
  }

  // The directories a path goes down through, and what it names there.
  function Place(path: string): seq<string> { Named(Split(path)) }

  // The absolute path that names a place from the top; the top itself is "/".
  function Absolute(place: seq<string>): string {
    if place == [] then "/" else Below(place)
  }

  function Below(place: seq<string>): string {
    if place == [] then "" else Below(place[..|place| - 1]) + "/" + place[|place| - 1]
  }

  // Where a key is written under a root directory that resolves to this place; None for a key that
  // climbs out of a directory, or whose path does not start with the root's and a separator.
  function Resolve(root: seq<string>, key: string): Option<seq<string>> {
    if ".." in Place(key) then None
    else
      var path := Absolute(root + Place(key));
      if path != Absolute(root) && !(Absolute(root) + "/" <= path) then None else Some(root + Place(key))
  }

  // ---------- Places of composed paths ----------

  function Extended(parts: seq<string>, c: char): seq<string>
    requires parts != []
  {
    if IsSeparator(c) then parts + [""] else parts[|parts| - 1 := parts[|parts| - 1] + [c]]
  }

  lemma ExtendedAppend(p: seq<string>, q: seq<string>, c: char)
    requires q != []
    ensures Extended(p + q, c) == p + Extended(q, c)
  {
  }

  lemma {:induction false} SplitAt(x: string, c: char, y: string)
    requires IsSeparator(c)
    ensures Split(x + [c] + y) == Split(x) + Split(y)
  {
    if y == "" {
      assert x + [c] + y == x + [c];
    } else {
      var n := |y| - 1;
      SplitAt(x, c, y[..n]);
      ExtendedAppend(Split(x), Split(y[..n]), y[n]);
      assert x + [c] + y[..n] + [y[n]] == x + [c] + y && y[..n] + [y[n]] == y;
    }
  }

  lemma {:induction false} NamedAppend(a: seq<string>, b: seq<string>)
    ensures Named(a + b) == Named(a) + Named(b)
  {
    if b == [] {
      assert a + b == a;
    } else {
      var front, last := b[..|b| - 1], b[|b| - 1];
      NamedAppend(a, front);
      assert (a + b)[..|a + b| - 1] == a + front;
      Regroup(Named(a), Named(front), [last]);
    }
  }

  lemma PlaceAt(x: string, c: char, y: string)
    requires IsSeparator(c)
    ensures Place(x + [c] + y) == Place(x) + Place(y)
  {
    SplitAt(x, c, y);
    NamedAppend(Split(x), Split(y));
  }

  lemma {:induction false} SplitWord(w: string)
    requires forall i | 0 <= i < |w| :: !IsSeparator(w[i])
    ensures Split(w) == [w]
  {
    if w != "" {
      SplitWord(w[..|w| - 1]);
      assert w[..|w| - 1] + [w[|w| - 1]] == w;
    }
  }

  lemma NamedOne(w: string)
    ensures Named([w]) == if w == "" || w == "." then [] else [w]
  {
    assert [w][..0] == [];
  }

  lemma PlaceWord(w: string)
    requires forall i | 0 <= i < |w| :: !IsSeparator(w[i])
    ensures Place(w) == if w == "" || w == "." then [] else [w]
  {
    hide Split, Named;
    SplitWord(w);
    NamedOne(w);
  }

  lemma {:induction false} PlaceDropSlashes(s: string)
    ensures Place(DropSlashes(s)) == Place(s)
  {
    if s != [] && s[|s| - 1] == '/' {
      var front := s[..|s| - 1];
      PlaceDropSlashes(front);
      PlaceAt(front, '/', "");
      PlaceWord("");
      assert s == front + ['/'] + "";
    }
  }

  lemma PlaceDot(s: string)
    ensures Place("./" + s) == Place(s)
  {
    hide Place;
    PlaceWord(".");
    PlaceAt(".", '/', s);
    assert "./" + s == "." + ['/'] + s;
  }

  // ---------- The source and the files ----------

  // For every plugin root and name, the source in the manifest names the directory the plugin's file
  // keys start with, however the root is spelled.
  lemma SourceNamesDirectory(pluginRoot: string, name: string)
    ensures Place(PluginSource(pluginRoot, name)) == Place(PluginRootPrefix(pluginRoot) + "/" + name)
    ensures Place(PluginSource(pluginRoot, name)) == Place(pluginRoot) + Place(name)
    ensures var source := PluginSource(pluginRoot, name); "./" <= source || "../" <= source
  {
    hide Place, DropSlashes;
    var root := DropSlashes(pluginRoot);
    PlaceDropSlashes(pluginRoot);
    PlaceDot(root);
    PrefixPlace(pluginRoot);
    PlaceAt(root, '/', name);
    PlaceAt("./" + root, '/', name);
    PlaceAt(PluginRootPrefix(pluginRoot), '/', name);
    assert "/" == ['/'];
  }

  lemma PrefixPlace(pluginRoot: string)
    ensures Place(PluginRootPrefix(pluginRoot)) == Place(pluginRoot)
  {
    hide Place, DropSlashes;
    PlaceDropSlashes(pluginRoot);
    if "./" <= pluginRoot {
      PlaceDropSlashes(pluginRoot[2..]);
      PlaceDot(pluginRoot[2..]);
      assert pluginRoot == "./" + pluginRoot[2..];
    }
  }

  lemma KebabPlace(name: string)
    requires IsKebab(name)
    ensures Place(name) == [name]
  {
    assert forall i | 0 <= i < |name| :: name[i] != '/' && name[i] != '\\';
    PlaceWord(name);
  }

  lemma PathPlace(pluginRoot: string, name: string, rel: string)
    requires IsKebab(name)
    ensures Place(Path(PluginRootPrefix(pluginRoot), name, rel)) == Place(pluginRoot) + [name] + Place(rel)
  {
    hide Place, IsKebab;
    PrefixPlace(pluginRoot);
    PlaceAt(PluginRootPrefix(pluginRoot), '/', name + ['/'] + rel);
    PlaceAt(name, '/', rel);
    KebabPlace(name);
    Regroup(PluginRootPrefix(pluginRoot), ['/'], name + ['/'] + rel);
    Regroup(Place(pluginRoot), [name], Place(rel));
  }

  // ---------- The files of a plugin ----------

  // The place of a file below its plugin's directory.
  predicate PlacedAt(rel: string, place: seq<string>) {
    Place(rel) == place && place != [] && ".." !in place
  }

  lemma TwoWords(a: string, b: string)
    requires IsSegment(a) && IsSegment(b)
    ensures PlacedAt(a + "/" + b, [a, b])
  {
    hide Place;
    PlaceWord(a);
    PlaceWord(b);
    PlaceAt(a, '/', b);
    assert a + "/" + b == a + ['/'] + b && [a] + [b] == [a, b];
  }

  predicate IsSegment(w: string) {
    w != "" && w != "." && w != ".." && forall i | 0 <= i < |w| :: !IsSeparator(w[i])
  }

  lemma ThreeWords(a: string, b: string, c: string)
    requires IsSegment(a) && IsSegment(b) && IsSegment(c)
    ensures PlacedAt(a + "/" + b + "/" + c, [a, b, c])
  {
    hide Place;
    TwoWords(a, b);
    PlaceWord(c);
    PlaceAt(a + "/" + b, '/', c);
    assert a + "/" + b + "/" + c == a + "/" + b + ['/'] + c && [a, b] + [c] == [a, b, c];
  }

  lemma OneWord(a: string)
    requires IsSegment(a)
    ensures PlacedAt(a, [a])
  {
    PlaceWord(a);
  }

  // A plugin's files have places of their own, and none climbs out.
  ghost predicate Separate(rels: seq<string>) {
    && (forall i | 0 <= i < |rels| :: Place(rels[i]) != [] && ".." !in Place(rels[i]))
    && (forall i, j | 0 <= i < j < |rels| :: Place(rels[i]) != Place(rels[j]))
  }

  lemma FixedSegments()
    ensures IsSegment(".claude-plugin") && IsSegment("plugin.json") && IsSegment("marketplace.json")
    ensures IsSegment("skills") && IsSegment("using-utter") && IsSegment("SKILL.md")
    ensures IsSegment("commands") && IsSegment("discover.md") && IsSegment("README.md")
  {
  }

  lemma BaseFilesSeparate()
    ensures Separate(BaseFiles())
  {
    hide Place, IsSegment;
    FixedSegments();
    TwoWords(".claude-plugin", "plugin.json");
    ThreeWords("skills", "using-utter", "SKILL.md");
    TwoWords("commands", "discover.md");
    OneWord("README.md");
    assert ".claude-plugin/plugin.json" == ".claude-plugin" + "/" + "plugin.json";
    assert "skills/using-utter/SKILL.md" == "skills" + "/" + "using-utter" + "/" + "SKILL.md";
    assert "commands/discover.md" == "commands" + "/" + "discover.md";
  }

  lemma SkillDirIsSegment(slug: string)
    ensures IsSegment(SkillDirForResource(slug))
  {
    hide ToKebab;
    var dir := SkillDirForResource(slug);
    ToKebabIsKebab(slug, 60, "endpoint");
    assert dir[0] != '.' && forall i | 0 <= i < |dir| :: dir[i] != '/' && dir[i] != '\\';
  }

  lemma EndpointFilesSeparate(slug: string)
    ensures Separate(EndpointFiles(slug))
  {
    hide Place, IsSegment, SkillDirForResource;
    var dir := SkillDirForResource(slug);
    SkillDirIsSegment(slug);
    FixedSegments();
    TwoWords(".claude-plugin", "plugin.json");
    ThreeWords("skills", dir, "SKILL.md");
    OneWord("README.md");
    assert ".claude-plugin/plugin.json" == ".claude-plugin" + "/" + "plugin.json";
    assert "skills/" + dir + "/SKILL.md" == "skills" + "/" + dir + "/" + "SKILL.md";
  }

  lemma AllFilesSeparate(resources: seq<Resource>, includeBase: bool, i: nat)
    requires i < |AllFiles(resources, includeBase)|
    ensures Separate(AllFiles(resources, includeBase)[i])
  {
    hide Separate;
    BaseFilesSeparate();
    forall k | 0 <= k < |resources| ensures Separate(EndpointFiles(resources[k].slug)) {
      EndpointFilesSeparate(resources[k].slug);
    }
  }

  // ---------- On disk ----------

  lemma {:induction false} BelowAppend(p: seq<string>, q: seq<string>)
    ensures Below(p + q) == Below(p) + Below(q)
  {
    if q == [] {
      assert p + q == p;
    } else {
      var front, last := q[..|q| - 1], q[|q| - 1];
      BelowAppend(p, front);
      assert (p + q)[..|p + q| - 1] == p + front;
      Regroup(Below(p), Below(front), "/" + last);
      Regroup(Below(front), "/", last);
      Regroup(Below(p) + Below(front), "/", last);
    }
  }

  lemma {:induction false} BelowStarts(place: seq<string>)
    requires place != [] && place[0] != "" && place[0][0] != '/'
    ensures |Below(place)| > 1 && Below(place)[0] == '/' && Below(place)[1] != '/'
  {
    if |place| > 1 {
      BelowStarts(place[..|place| - 1]);
    } else {
      assert place[..0] == [];
    }
  }

  // Names between separators hold no separator.
  lemma {:induction false} NamedSegments(s: string)
    ensures forall w | w in Split(s) :: forall k | 0 <= k < |w| :: !IsSeparator(w[k])
  {
    if s != "" {
      NamedSegments(s[..|s| - 1]);
    }
  }

  lemma {:induction false} NamedFrom(parts: seq<string>)
    ensures forall w | w in Named(parts) :: w in parts && w != ""
  {
    if parts != [] {
      NamedFrom(parts[..|parts| - 1]);
    }
  }

  // Under the top directory nothing is taken, and under any other everything that climbs out of none.
  lemma ResolvesExactly(root: seq<string>, key: string)
    requires Place(key) != []
    ensures Resolve(root, key).Some? <==> ".." !in Place(key) && root != []
  {
    hide Split, Named;
    var place := Place(key);
    BelowAppend(root, place);
    NamedSegments(key);
    NamedFrom(Split(key));
    assert place[0] in place;
    BelowStarts(place);
    if root != [] {
      assert Below(place)[..1] == "/";
      assert Below(root) + "/" <= Below(root) + Below(place);
    } else {
      assert root + place == place;
      assert ("/" + "/")[1] == '/';
    }
  }

  // The writer takes a plugin's file if and only if the plugin root climbs out of no directory and
  // the directory written to is not the top one.
  lemma WriterTakesExactly(root: seq<string>, resources: seq<Resource>, includeBase: bool, pluginRoot: string,
                           name: string, i: nat, j: nat)
    requires IsKebab(name)
    requires i < |AllFiles(resources, includeBase)| && j < |AllFiles(resources, includeBase)[i]|
    ensures Resolve(root, Path(PluginRootPrefix(pluginRoot), name, AllFiles(resources, includeBase)[i][j])).Some?
       <==> ".." !in Place(pluginRoot) && root != []
  {
    hide Place, AllFiles, IsKebab, Resolve;
    AllFilesSeparate(resources, includeBase, i);
    PathPlace(pluginRoot, name, AllFiles(resources, includeBase)[i][j]);
    NotDots(name);
    ResolvesExactly(root, Path(PluginRootPrefix(pluginRoot), name, AllFiles(resources, includeBase)[i][j]));
  }

  lemma NotDots(name: string)
    requires IsKebab(name)
    ensures name != ".." && name != ".claude-plugin"
  {
    assert name[0] != '.';
  }

  // Different files of a marketplace have different places, and none takes the manifest's: nothing
  // overwrites anything on disk either.
  lemma FilesApartOnDisk(resources: seq<Resource>, includeBase: bool, pluginRoot: string, names: seq<string>,
                         i: nat, j: nat, i': nat, j': nat)
    requires var rels := AllFiles(resources, includeBase);
             && |names| == |rels| && Marketplace.Distinct(names) && (forall n | n in names :: IsKebab(n))
             && i < |rels| && j < |rels[i]| && i' < |rels| && j' < |rels[i']| && (i, j) != (i', j')
    ensures var rels, prefix := AllFiles(resources, includeBase), PluginRootPrefix(pluginRoot);
            && Place(Path(prefix, names[i], rels[i][j])) != Place(Path(prefix, names[i'], rels[i'][j']))
            && Place(Path(prefix, names[i], rels[i][j])) != Place(MANIFEST_PATH)
  {
    hide Place, AllFiles, IsKebab;
    var rels, root := AllFiles(resources, includeBase), Place(pluginRoot);
    AllFilesSeparate(resources, includeBase, i);
    AllFilesSeparate(resources, includeBase, i');
    PathPlace(pluginRoot, names[i], rels[i][j]);
    PathPlace(pluginRoot, names[i'], rels[i'][j']);
    ManifestPlace();
    NotDots(names[i]);
    OnePlace(root, names[i], Place(rels[i][j]), names[i'], Place(rels[i'][j']));
    NotManifest(root, names[i], Place(rels[i][j]));
  }

  lemma OnePlace(root: seq<string>, n: string, p: seq<string>, m: string, q: seq<string>)
    ensures root + [n] + p == root + [m] + q ==> n == m && p == q
  {
    var a, b := root + [n] + p, root + [m] + q;
    assert a[|root|] == n && b[|root|] == m && a[|root| + 1..] == p && b[|root| + 1..] == q;
  }

  lemma NotManifest(root: seq<string>, n: string, p: seq<string>)
    requires n != ".claude-plugin" && p != []
    ensures root + [n] + p != [".claude-plugin", "marketplace.json"]
  {
    assert (root + [n] + p)[|root|] == n;
  }

  lemma ManifestPlace()
    ensures Place(MANIFEST_PATH) == [".claude-plugin", "marketplace.json"]
  {
    hide Place, IsSegment;
    FixedSegments();
    TwoWords(".claude-plugin", "marketplace.json");
    assert MANIFEST_PATH == ".claude-plugin" + "/" + "marketplace.json";
  }
}
