// Bounded kebab-case names (packages/plugin-gen/src/naming.ts).
module Naming {
  import opened Prelude

  const MAX_PLUGIN_NAME: nat := 64

  predicate IsAlnum(c: char) {
    'a' <= c <= 'z' || '0' <= c <= '9'
  }

  // ---------- Kebab identifiers ----------

  // Word characters and single hyphens.
  predicate Tidy(s: string) {
    && (forall i | 0 <= i < |s| :: IsAlnum(s[i]) || s[i] == '-')
    && (forall i | 0 <= i < |s| - 1 :: !(s[i] == '-' && s[i + 1] == '-'))
  }

  predicate IsKebab(s: string) {
    s != [] && Tidy(s) && s[0] != '-' && s[|s| - 1] != '-'
  }

  predicate IsWord(w: string) {
    w != [] && forall i | 0 <= i < |w| :: IsAlnum(w[i])
  }

  function Join(words: seq<string>): string
    requires words != []
  {
    if |words| == 1 then words[0] else words[0] + ['-'] + Join(words[1..])
  }

  ghost predicate IsWords(words: seq<string>) {
    words != [] && forall i | 0 <= i < |words| :: IsWord(words[i])
  }

  lemma {:induction false} JoinIsKebab(words: seq<string>)
    requires IsWords(words)
    ensures IsKebab(Join(words))
  {
    if |words| > 1 {
      JoinIsKebab(words[1..]);
    }
  }

  // How many leading characters come before the first hyphen.
  function FirstWord(s: string): (n: nat)
    ensures n <= |s|
    ensures '-' !in s[..n]
    ensures n < |s| ==> s[n] == '-'
  {
    if s == [] || s[0] == '-' then 0
    else
      assert s[..1 + FirstWord(s[1..])] == [s[0]] + s[1..][..FirstWord(s[1..])];
      1 + FirstWord(s[1..])
  }

  lemma {:induction false} KebabWords(s: string) returns (words: seq<string>)
    requires IsKebab(s)
    ensures IsWords(words) && Join(words) == s
  {
    var n := FirstWord(s);
    assert forall i | 0 <= i < n :: s[..n][i] == s[i];
    if n == |s| {
      assert s[..n] == s;
      words := [s];
    } else {
      var tail := s[n + 1..];
      assert tail != [];
      assert IsKebab(tail) by {
        assert forall i | 0 <= i < |tail| :: tail[i] == s[n + 1 + i];
      }
      var more := KebabWords(tail);
      words := [s[..n]] + more;
      assert words[1..] == more;
      assert s == s[..n] + ['-'] + tail;
    }
  }

  lemma AlnumExactly()
    ensures forall c: char :: IsAlnum(c) <==> c in "abcdefghijklmnopqrstuvwxyz0123456789"
  {
    forall c: char ensures IsAlnum(c) <==> c in "abcdefghijklmnopqrstuvwxyz0123456789" {
    }
  }

  // The character conditions are the grammar: words of letters and digits joined by single hyphens.
  lemma KebabIsGrammar(s: string)
    ensures IsKebab(s) <==> exists words :: IsWords(words) && Join(words) == s
    ensures forall c: char :: IsAlnum(c) <==> c in "abcdefghijklmnopqrstuvwxyz0123456789"
  {
    AlnumExactly();
    if IsKebab(s) {
      var words := KebabWords(s);
    }
    forall words | IsWords(words) && Join(words) == s ensures IsKebab(s) {
      JoinIsKebab(words);
    }
  }

  predicate IsValidPluginName(name: string) {
    IsKebab(name) && |name| <= 64
  }

  // ---------- toKebab ----------

  // Each run of other characters becomes one hyphen.
  function Collapse(s: string): string {
    if s == [] then []
    else if IsAlnum(s[0]) then [s[0]] + Collapse(s[1..])
    else if |s| > 1 && !IsAlnum(s[1]) then Collapse(s[1..])
    else ['-'] + Collapse(s[1..])
  }

  function StripFront(s: string): string {
    if s != [] && s[0] == '-' then StripFront(s[1..]) else s
  }

  function StripBack(s: string): string {
    if s != [] && s[|s| - 1] == '-' then StripBack(s[..|s| - 1]) else s
  }

  // What follows the lower-casing of the input.
  function KebabOf(s: string, max: nat, fallback: string): string {
    var t := StripBack(StripFront(Collapse(s)));
    var cut := if |t| > max then StripBack(t[..max]) else t;
    if |cut| > 0 then cut else fallback
  }

  function ToKebab(input: string, max: nat, fallback: string): string {
    KebabOf(Lower(input), max, fallback)
  }

  lemma {:induction false} CollapseTidy(s: string)
    ensures Tidy(Collapse(s))
    ensures s == [] ==> Collapse(s) == []
    ensures s != [] && IsAlnum(s[0]) ==> Collapse(s) != [] && Collapse(s)[0] == s[0]
  {
    if s != [] {
      CollapseTidy(s[1..]);
      var r, tail := Collapse(s), Collapse(s[1..]);
      if IsAlnum(s[0]) || |s| == 1 || IsAlnum(s[1]) {
        assert forall i | 1 <= i < |r| :: r[i] == tail[i - 1];
      }
    }
  }

  lemma {:induction false} StripFrontTidy(s: string)
    requires Tidy(s)
    ensures Tidy(StripFront(s)) && (StripFront(s) != [] ==> StripFront(s)[0] != '-')
  {
    if s != [] && s[0] == '-' {
      assert forall i | 0 <= i < |s[1..]| :: s[1..][i] == s[i + 1];
      StripFrontTidy(s[1..]);
    }
  }

  lemma {:induction false} StripBackTidy(s: string)
    requires Tidy(s)
    ensures var r := StripBack(s);
            && Tidy(r) && |r| <= |s| && r == s[..|r|]
            && (r != [] ==> r[|r| - 1] != '-')
            && (s != [] && s[0] != '-' ==> r != [])
  {
    if s != [] && s[|s| - 1] == '-' {
      StripBackTidy(s[..|s| - 1]);
    } else {
      assert s[..|s|] == s;
    }
  }

  // A cut-off front of a kebab name, its dangling hyphen stripped, is a kebab name.
  lemma KebabPrefix(s: string, n: nat)
    requires IsKebab(s) && 0 < n <= |s|
    ensures IsKebab(StripBack(s[..n])) && |StripBack(s[..n])| <= n
  {
    StripBackTidy(s[..n]);
  }

  lemma {:induction false} KebabFixed(s: string)
    requires Tidy(s) && (s != [] ==> s[|s| - 1] != '-')
    ensures Collapse(s) == s
  {
    if s != [] {
      assert forall i | 0 <= i < |s[1..]| :: s[1..][i] == s[i + 1];
      KebabFixed(s[1..]);
      assert s == [s[0]] + s[1..];
      if s[0] == '-' {
        assert s[1] != '-';
      }
    }
  }

  lemma KebabUnchanged(r: string, max: nat, fallback: string)
    requires IsKebab(r) && |r| <= max
    ensures ToKebab(r, max, fallback) == r
  {
    hide Collapse;
    assert Lower(r) == r;
    KebabFixed(r);
    assert StripFront(r) == r && StripBack(r) == r;
  }

  // Whatever the text, the result is a kebab name within the bound, and normalising it again
  // changes nothing.
  lemma KebabOfIsKebab(s: string, max: nat, fallback: string)
    requires IsKebab(fallback) && |fallback| <= max
    ensures var r := KebabOf(s, max, fallback);
            IsKebab(r) && |r| <= max && ToKebab(r, max, fallback) == r
  {
    hide Collapse, StripFront, StripBack, Tidy, ToKebab;
    CollapseTidy(s);
    StripFrontTidy(Collapse(s));
    StripBackTidy(StripFront(Collapse(s)));
    var t := StripBack(StripFront(Collapse(s)));
    if |t| > max {
      KebabPrefix(t, max);
    }
    KebabUnchanged(KebabOf(s, max, fallback), max, fallback);
  }

  lemma ToKebabIsKebab(input: string, max: nat, fallback: string)
    requires IsKebab(fallback) && |fallback| <= max
    ensures var r := ToKebab(input, max, fallback);
            IsKebab(r) && |r| <= max && ToKebab(r, max, fallback) == r
  {
    KebabOfIsKebab(Lower(input), max, fallback);
  }

  // ---------- What a name keeps of its text ----------

  // The text is these words with these gaps before, between and after them.
  function Weave(gaps: seq<string>, words: seq<string>): string
    requires |gaps| == |words| + 1
  {
    if words == [] then gaps[0] else gaps[0] + (words[0] + Weave(gaps[1..], words[1..]))
  }

  // The words are its maximal runs of small letters and digits.
  ghost predicate HasWords(s: string, gaps: seq<string>, words: seq<string>) {
    && |gaps| == |words| + 1 && s == Weave(gaps, words)
    && (forall k | 0 <= k < |words| :: IsWord(words[k]))
    && (forall k | 0 <= k < |gaps| :: IsGap(gaps[k]) && (0 < k < |words| ==> gaps[k] != ""))
  }

  predicate IsGap(g: string) { forall k | 0 <= k < |g| :: !IsAlnum(g[k]) }

  function Dash(g: string): string { if g == "" then "" else "-" }

  lemma {:induction false} CollapseGap(g: string, rest: string)
    requires IsGap(g) && (rest == "" || IsAlnum(rest[0]))
    ensures Collapse(g + rest) == Dash(g) + Collapse(rest)
  {
    if g == "" {
      assert g + rest == rest;
    } else {
      CollapseGap(g[1..], rest);
      assert (g + rest)[1..] == g[1..] + rest;
      if g[1..] == "" {
        assert g[1..] + rest == rest;
      }
    }
  }

  lemma {:induction false} CollapseWord(w: string, rest: string)
    requires forall k | 0 <= k < |w| :: IsAlnum(w[k])
    ensures Collapse(w + rest) == w + Collapse(rest)
  {
    if w == "" {
      assert w + rest == rest;
    } else {
      CollapseWord(w[1..], rest);
      assert (w + rest)[1..] == w[1..] + rest;
      assert w == [w[0]] + w[1..];
    }
  }

  lemma {:induction false} CollapseWoven(s: string, gaps: seq<string>, words: seq<string>)
    requires HasWords(s, gaps, words)
    ensures Collapse(s) == if words == [] then Dash(gaps[0]) else Dash(gaps[0]) + Join(words) + Dash(gaps[|words|])
    decreases |words|
  {
    hide Collapse, Weave, Join, IsGap;
    if words == [] {
      WeaveNone(gaps);
      CollapseGap(gaps[0], "");
      assert gaps[0] + "" == gaps[0] && Collapse("") == "" by { CollapseNothing(); }
    } else {
      var tail := Weave(gaps[1..], words[1..]);
      WordsTail(s, gaps, words);
      CollapseWoven(tail, gaps[1..], words[1..]);
      CollapseWord(words[0], tail);
      CollapseGap(gaps[0], words[0] + tail);
      JoinStep(words);
      if |words| > 1 {
        assert gaps[1..][0] == gaps[1] && gaps[1..][|words[1..]|] == gaps[|words|];
        DashJoins(Dash(gaps[0]), words[0], Join(words[1..]), Dash(gaps[|words|]));
      } else {
        Regroup(Dash(gaps[0]), words[0], Dash(gaps[1]));
      }
    }
  }

  lemma WeaveNone(gaps: seq<string>)
    requires |gaps| == 1
    ensures Weave(gaps, []) == gaps[0]
  {
  }

  lemma DashJoins(d: string, a: string, b: string, e: string)
    ensures d + (a + ("-" + b + e)) == d + (a + ['-'] + b) + e
  {
    Regroup("-", b, e);
    Regroup(a, ['-'], b + e);
    Regroup(a + ['-'], b, e);
    Regroup(d, a + ['-'] + b, e);
    assert "-" == ['-'];
  }

  lemma JoinStep(words: seq<string>)
    requires words != []
    ensures Join(words) == if |words| == 1 then words[0] else words[0] + ['-'] + Join(words[1..])
  {
  }

  lemma WordsTail(s: string, gaps: seq<string>, words: seq<string>)
    requires HasWords(s, gaps, words) && words != []
    ensures HasWords(Weave(gaps[1..], words[1..]), gaps[1..], words[1..])
    ensures s == gaps[0] + (words[0] + Weave(gaps[1..], words[1..]))
    ensures IsWord(words[0]) && IsGap(gaps[0]) && (|words| > 1 ==> gaps[1] != "")
  {
    assert forall k | 0 <= k < |words[1..]| :: words[1..][k] == words[k + 1];
    assert forall k | 0 <= k < |gaps[1..]| :: gaps[1..][k] == gaps[k + 1];
  }

  lemma CollapseNothing()
    ensures Collapse("") == ""
  {
  }

  lemma StripsDashes(g: string, j: string, h: string)
    requires IsKebab(j)
    ensures StripBack(StripFront(Dash(g) + j + Dash(h))) == j
  {
    var s := Dash(g) + j + Dash(h);
    var t := j + Dash(h);
    assert StripFront(s) == t by {
      if g != "" {
        assert s[1..] == t;
      } else {
        assert s == t;
      }
    }
    if h != "" {
      assert t[..|t| - 1] == j;
    } else {
      assert t == j;
    }
  }

  // The name is the words of the text joined by hyphens; the fallback where it has none; and where
  // they are too long the longest part of that from the front that fits and ends in no hyphen.
  lemma NameKeepsWords(s: string, gaps: seq<string>, words: seq<string>, max: nat, fallback: string)
    requires HasWords(s, gaps, words) && 0 < max
    ensures words == [] ==> KebabOf(s, max, fallback) == fallback
    ensures words != [] && |Join(words)| <= max ==> KebabOf(s, max, fallback) == Join(words)
    ensures words != [] && |Join(words)| > max ==>
              var r, all := KebabOf(s, max, fallback), Join(words);
              r <= all && (if all[max - 1] == '-' then |r| == max - 1 else |r| == max)
  {
    hide Collapse;
    CollapseWoven(s, gaps, words);
    if words == [] {
      assert StripBack(StripFront(Dash(gaps[0]))) == "";
    } else {
      var all := Join(words);
      JoinIsKebab(words);
      StripsDashes(gaps[0], all, gaps[|words|]);
      if |all| > max {
        CutStrips(all, max);
      }
    }
  }

  lemma CutStrips(all: string, max: nat)
    requires IsKebab(all) && 0 < max < |all|
    ensures StripBack(all[..max]) == if all[max - 1] == '-' then all[..max - 1] else all[..max]
  {
    if all[max - 1] == '-' {
      assert all[..max][..max - 1] == all[..max - 1];
      assert all[max - 2] != '-';
    }
  }

  const PREFIX := "utter"

  function PluginNameForResource(slug: string): string {
    PREFIX + ['-'] + ToKebab(slug, 56, "resource")
  }

  lemma WordlessName(s: string)
    requires IsGap(s)
    ensures KebabOf(s, 56, "resource") == "resource"
  {
    hide KebabOf;
    assert HasWords(s, [s], []);
    NameKeepsWords(s, [s], [], 56, "resource");
  }

  lemma PluginNameIsValid(slug: string)
    ensures IsValidPluginName(PluginNameForResource(slug)) && |PluginNameForResource(slug)| <= 62
    ensures IsGap(Lower(slug)) ==> PluginNameForResource(slug) == "utter-resource"
  {
    hide KebabOf, IsGap;
    if IsGap(Lower(slug)) {
      WordlessName(Lower(slug));
    }
    assert IsKebab("resource") && IsKebab(PREFIX);
    ToKebabIsKebab(slug, 56, "resource");
  }

  // ---------- boundedSuffix ----------

  function BoundedSuffix(name: string, suffix: string, max: int): string {
    var room := max - (|suffix| + 1);
    var keep := if room < 1 then 1 else room;
    var base := if |name| > room then StripBack(name[..if keep < |name| then keep else |name|]) else name;
    base + ['-'] + suffix
  }

  // A kebab name stays one, and fits the bound exactly when the suffix leaves room for one
  // character and a hyphen.
  lemma BoundedSuffixIsKebab(name: string, suffix: string, max: int)
    requires IsKebab(name) && IsKebab(suffix)
    ensures IsKebab(BoundedSuffix(name, suffix, max))
    ensures |BoundedSuffix(name, suffix, max)| <= max <==> |suffix| <= max - 2
  {
    var room := max - (|suffix| + 1);
    var keep := if room < 1 then 1 else room;
    if |name| > room {
      KebabPrefix(name, if keep < |name| then keep else |name|);
    }
  }

  // It keeps the whole name where there is room, else as much of its front as fits, and ends in the
  // suffix.
  lemma BoundedSuffixKeeps(name: string, suffix: string, max: int)
    ensures var r := BoundedSuffix(name, suffix, max);
            && |suffix| < |r| && r[|r| - |suffix| - 1..] == "-" + suffix
            && r[..|r| - |suffix| - 1] <= name
            && (|name| + 1 + |suffix| <= max ==> r == name + "-" + suffix)
  {
    var r := BoundedSuffix(name, suffix, max);
    var base := r[..|r| - |suffix| - 1];
    assert r == base + ['-'] + suffix;
    BackIsPrefix(name);
    var room := max - (|suffix| + 1);
    var keep := if room < 1 then 1 else room;
    BackIsPrefix(name[..if keep < |name| then keep else |name|]);
  }

  lemma {:induction false} BackIsPrefix(s: string)
    ensures StripBack(s) <= s
  {
    if s != [] && s[|s| - 1] == '-' {
      BackIsPrefix(s[..|s| - 1]);
    }
  }

  // The text after the last hyphen.
  function LastWord(s: string): string {
    if s == [] || s[|s| - 1] == '-' then [] else LastWord(s[..|s| - 1]) + [s[|s| - 1]]
  }

  lemma {:induction false} LastWordOf(front: string, w: string)
    requires '-' !in w
    ensures LastWord(front + ['-'] + w) == w
  {
    var s := front + ['-'] + w;
    if w != [] {
      var shorter := w[..|w| - 1];
      LastWordOf(front, shorter);
      assert s[..|s| - 1] == front + ['-'] + shorter;
      assert w == shorter + [w[|w| - 1]];
    }
  }

  // ---------- resource ids ----------

  predicate IsBlank(c: char) {
    || c == ' ' || '\t' <= c <= '\r' || c == '\U{a0}' || c == '\U{feff}' || c == '\U{1680}'
    || '\U{2000}' <= c <= '\U{200a}' || c == '\U{2028}' || c == '\U{2029}'
    || c == '\U{202f}' || c == '\U{205f}' || c == '\U{3000}'
  }

  function TrimFront(s: string): string {
    if s != [] && IsBlank(s[0]) then TrimFront(s[1..]) else s
  }

  function TrimBack(s: string): string {
    if s != [] && IsBlank(s[|s| - 1]) then TrimBack(s[..|s| - 1]) else s
  }

  function Trim(s: string): string { TrimBack(TrimFront(s)) }

  predicate IsHexDigit(c: char) {
    '0' <= c <= '9' || 'a' <= c <= 'f' || 'A' <= c <= 'F'
  }

  predicate IsBytes32(resourceId: string) {
    var s := Trim(resourceId);
    |s| == 66 && s[..2] == "0x" && forall i | 2 <= i < 66 :: IsHexDigit(s[i])
  }

  // The white space and line terminators of section 12 of ECMA-262.
  const BLANKS := "\t\n\U{b}\U{c}\r \U{a0}\U{1680}\U{2000}\U{2001}\U{2002}\U{2003}\U{2004}\U{2005}\U{2006}\U{2007}\U{2008}\U{2009}\U{200a}\U{2028}\U{2029}\U{202f}\U{205f}\U{3000}\U{feff}"

  predicate Listed(c: char) { c in BLANKS }

  predicate AllBlank(s: string) { forall k | 0 <= k < |s| :: Listed(s[k]) }

  lemma BlankExactly(c: char)
    ensures IsBlank(c) <==> Listed(c)
  {
  }

  // The text is this one with white space around it, and this one starts and ends with none.
  predicate Padded(s: string, front: string, t: string, back: string) {
    && s == front + t + back && AllBlank(front) && AllBlank(back)
    && (t != "" ==> !Listed(t[0]) && !Listed(t[|t| - 1]))
  }

  lemma {:induction false} TrimFrontSplits(s: string) returns (front: string)
    ensures s == front + TrimFront(s) && AllBlank(front)
    ensures TrimFront(s) != "" ==> !Listed(TrimFront(s)[0])
  {
    hide IsBlank, Listed;
    front := "";
    if s != "" {
      BlankExactly(s[0]);
      if IsBlank(s[0]) {
        front := TrimFrontSplits(s[1..]);
        front := [s[0]] + front;
        assert s == [s[0]] + s[1..];
      }
    }
  }

  lemma {:induction false} TrimBackSplits(s: string) returns (back: string)
    ensures s == TrimBack(s) + back && AllBlank(back)
    ensures TrimBack(s) != "" ==> !Listed(TrimBack(s)[|TrimBack(s)| - 1])
  {
    hide IsBlank, Listed;
    back := "";
    if s != "" {
      var n := |s| - 1;
      BlankExactly(s[n]);
      if IsBlank(s[n]) {
        back := TrimBackSplits(s[..n]);
        back := back + [s[n]];
        assert s == s[..n] + [s[n]];
      }
    }
  }

  lemma TrimSplits(s: string) returns (front: string, back: string)
    ensures Padded(s, front, Trim(s), back)
  {
    hide IsBlank, Listed, TrimFront, TrimBack;
    front := TrimFrontSplits(s);
    back := TrimBackSplits(TrimFront(s));
    var t := Trim(s);
    if t != "" {
      assert TrimFront(s)[0] == t[0];
    }
    Regroup(front, t, back);
  }

  lemma BlankAround(s: string, front: string, t: string, back: string, k: nat)
    requires Padded(s, front, t, back) && k < |s| && (k < |front| || |front| + |t| <= k)
    ensures Listed(s[k])
  {
    hide Listed;
    assert s[k] == if k < |front| then front[k] else back[k - |front| - |t|];
  }

  lemma PaddedLengths(s: string, front: string, t: string, back: string)
    requires Padded(s, front, t, back)
    ensures |front| + |t| <= |s| && s[|front|..|front| + |t|] == t
  {
  }

  lemma CoreEdges(s: string, front: string, t: string, back: string)
    requires Padded(s, front, t, back) && t != ""
    ensures |front| + |t| <= |s| && !Listed(s[|front|]) && !Listed(s[|front| + |t| - 1])
  {
    hide Listed;
  }

  // There is one way to split a text so, up to an empty core.
  lemma PaddedOnce(s: string, a: string, t: string, b: string, c: string, u: string, d: string)
    requires Padded(s, a, t, b) && Padded(s, c, u, d) && t != "" && u != ""
    ensures t == u
  {
    hide Padded, Listed;
    PaddedLengths(s, a, t, b);
    PaddedLengths(s, c, u, d);
    var m, n := |a| + |t|, |c| + |u|;
    if |a| < |c| {
      BlankAround(s, c, u, d, |a|);
    } else if |c| < |a| {
      BlankAround(s, a, t, b, |c|);
    }
    if m < n {
      BlankAround(s, a, t, b, n - 1);
    } else if n < m {
      BlankAround(s, c, u, d, m - 1);
    }
    CoreEdges(s, a, t, b);
    CoreEdges(s, c, u, d);
  }

  function ResourceIdCore(resourceId: string): string {
    var s := Trim(resourceId);
    Lower(if |s| >= 2 && s[0] == '0' && (s[1] == 'x' || s[1] == 'X') then s[2..] else s)
  }

  // The collision suffix of a resource.
  function HexOf(resourceId: string): string {
    var core := ResourceIdCore(resourceId);
    var hex := if |core| > 6 then core[..6] else core;
    if hex == [] then "x" else hex
  }

  // A well-formed id is 0x and 64 hex digits, white space around it aside.
  ghost predicate IsIdText(resourceId: string, front: string, digits: string, back: string) {
    && resourceId == front + ("0x" + digits) + back && AllBlank(front) && AllBlank(back) && |digits| == 64
    && forall k | 0 <= k < |digits| :: digits[k] in "0123456789abcdefABCDEF"
  }

  lemma HexChars(c: char)
    ensures IsHexDigit(c) <==> c in "0123456789abcdefABCDEF"
  {
  }

  lemma HexIsNotBlank(c: char)
    requires IsHexDigit(c)
    ensures !Listed(c)
  {
    BlankExactly(c);
  }

  lemma IdIsBytes32(resourceId: string, front: string, digits: string, back: string)
    requires IsIdText(resourceId, front, digits, back)
    ensures IsBytes32(resourceId) && Trim(resourceId) == "0x" + digits
  {
    hide IsHexDigit, Trim, AllBlank, Listed;
    var t := "0x" + digits;
    forall k | 2 <= k < 66 ensures IsHexDigit(t[k]) && !Listed(t[k]) {
      assert t[k] == digits[k - 2];
      HexChars(t[k]);
      HexIsNotBlank(t[k]);
    }
    ZeroIsNotBlank();
    assert Padded(resourceId, front, t, back);
    var a, b := TrimSplits(resourceId);
    if Trim(resourceId) == "" {
      assert resourceId[|front|] == '0' && resourceId == a + b;
      BlankAt(a, b, |front|);
    } else {
      PaddedOnce(resourceId, front, t, back, a, Trim(resourceId), b);
    }
  }

  lemma ZeroIsNotBlank()
    ensures !Listed('0')
  {
  }

  lemma BlankAt(a: string, b: string, k: nat)
    requires AllBlank(a) && AllBlank(b) && k < |a + b|
    ensures Listed((a + b)[k])
  {
  }

  lemma CoreOfId(resourceId: string, digits: string)
    requires Trim(resourceId) == "0x" + digits && |digits| == 64
    ensures HexOf(resourceId) == Lower(digits)[..6]
  {
    hide Trim, Lower;
    assert ("0x" + digits)[2..] == digits;
  }

  lemma LowerFront(s: string, n: nat)
    requires n <= |s|
    ensures SameLetters(s[..n], Lower(s)[..n]) && NoCapitals(Lower(s)[..n])
  {
    hide SameLetter;
    LowerExactly(s, s);
  }

  // The collision suffix is the first six hex digits of a well-formed id, in small letters.
  lemma HexOfId(resourceId: string, front: string, digits: string, back: string)
    requires IsIdText(resourceId, front, digits, back)
    ensures SameLetters(digits[..6], HexOf(resourceId)) && NoCapitals(HexOf(resourceId))
  {
    hide IsHexDigit, Trim, AllBlank, Lower, SameLetters, NoCapitals, HexOf;
    IdIsBytes32(resourceId, front, digits, back);
    CoreOfId(resourceId, digits);
    LowerFront(digits, 6);
  }

  // And only such texts are well formed.
  lemma BytesExactly(resourceId: string)
    ensures IsBytes32(resourceId) <==> exists front, digits, back :: IsIdText(resourceId, front, digits, back)
  {
    hide IsHexDigit, Trim, AllBlank;
    if IsBytes32(resourceId) {
      var front, back := TrimSplits(resourceId);
      var t := Trim(resourceId);
      var digits := t[2..];
      forall k | 0 <= k < |digits| ensures digits[k] in "0123456789abcdefABCDEF" {
        assert digits[k] == t[k + 2];
        HexChars(digits[k]);
      }
      assert t == "0x" + digits;
      assert IsIdText(resourceId, front, digits, back);
    }
    forall front, digits, back | IsIdText(resourceId, front, digits, back) ensures IsBytes32(resourceId) {
      IdIsBytes32(resourceId, front, digits, back);
    }
  }

  lemma HexIsWord(resourceId: string)
    requires IsBytes32(resourceId)
    ensures IsWord(HexOf(resourceId)) && |HexOf(resourceId)| == 6
  {
  }
}
