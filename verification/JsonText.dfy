// JSON values, their canonical text (services/deployer/src/cache.ts, canonStructural) and the
// JSON reader the body goes through first (JSON.parse, RFC 8259), over UTF-16 code units.
module JsonText {
  import opened Prelude

  newtype Unit = x: int | 0 <= x < 0x1_0000
  type Str = seq<Unit>

  // A parsed value. A finite number is the numeral JSON.stringify prints for it; a numeral
  // beyond the double range reads as an infinity. An object is the map its keys make.
  datatype Json =
    | Null
    | Bool(b: bool)
    | Num(text: Str)
    | Infinite(negative: bool)
    | Text(s: Str)
    | Arr(items: seq<Json>)
    | Obj(fields: map<Str, Json>)

  // How numerals are read: the language's numeral-to-double-to-numeral round trip.
  type Numbers = Str -> Json

  const QUOTE: Unit := 34
  const BACKSLASH: Unit := 92
  const COMMA: Unit := 44
  const COLON: Unit := 58
  const OPEN_BRACKET: Unit := 91
  const CLOSE_BRACKET: Unit := 93
  const OPEN_BRACE: Unit := 123
  const CLOSE_BRACE: Unit := 125
  const NEWLINE: Unit := 10

  const NULL_TEXT: Str := [110, 117, 108, 108]
  const TRUE_TEXT: Str := [116, 114, 117, 101]
  const FALSE_TEXT: Str := [102, 97, 108, 115, 101]

  // ---------- Quoted strings (JSON.stringify of a string) ----------

  predicate IsHigh(u: Unit) { 0xD800 <= u <= 0xDBFF }

  predicate IsLow(u: Unit) { 0xDC00 <= u <= 0xDFFF }

  function HexUnit(d: Unit): Unit
    requires d < 16
  {
    if d < 10 then 48 + d else 87 + d
  }

  function Escape(u: Unit): Str {
    [BACKSLASH, 117, HexUnit(u / 4096), HexUnit(u / 256 % 16), HexUnit(u / 16 % 16), HexUnit(u % 16)]
  }

  // One code unit inside quotes; `lone` marks a surrogate without its partner.
  function QuoteUnit(u: Unit, lone: bool): Str {
    if u == QUOTE then [BACKSLASH, QUOTE]
    else if u == BACKSLASH then [BACKSLASH, BACKSLASH]
    else if u == 8 then [BACKSLASH, 98]
    else if u == 9 then [BACKSLASH, 116]
    else if u == 10 then [BACKSLASH, 110]
    else if u == 12 then [BACKSLASH, 102]
    else if u == 13 then [BACKSLASH, 114]
    else if u < 32 || lone then Escape(u)
    else [u]
  }

  function QuoteBody(s: Str): Str {
    if s == [] then []
    else if IsHigh(s[0]) && |s| > 1 && IsLow(s[1]) then [s[0], s[1]] + QuoteBody(s[2..])
    else QuoteUnit(s[0], IsHigh(s[0]) || IsLow(s[0])) + QuoteBody(s[1..])
  }

  function Quote(s: Str): Str {
    [QUOTE] + QuoteBody(s) + [QUOTE]
  }

  // ---------- Key order (Array.prototype.sort on strings) ----------

  predicate Before(a: Str, b: Str) {
    if b == [] then false
    else if a == [] then true
    else if a[0] != b[0] then a[0] < b[0]
    else Before(a[1..], b[1..])
  }

  predicate Ascending(keys: seq<Str>) {
    forall i, j | 0 <= i < j < |keys| :: Before(keys[i], keys[j])
  }

  lemma {:induction false} BeforeTrichotomy(a: Str, b: Str)
    ensures Before(a, b) || a == b || Before(b, a)
    ensures !(Before(a, b) && Before(b, a))
    ensures !Before(a, a)
  {
    if a != [] && b != [] {
      BeforeTrichotomy(a[1..], b[1..]);
      assert a == [a[0]] + a[1..] && b == [b[0]] + b[1..];
    }
    if a != [] {
      BeforeTrichotomy(a[1..], a[1..]);
    }
  }

  lemma {:induction false} BeforeTransitive(a: Str, b: Str, c: Str)
    requires Before(a, b) && Before(b, c)
    ensures Before(a, c)
  {
    if a != [] && a[0] == b[0] && b[0] == c[0] {
      BeforeTransitive(a[1..], b[1..], c[1..]);
    }
  }

  predicate IsLeast(k: Str, keys: set<Str>) {
    k in keys && forall j | j in keys :: j == k || Before(k, j)
  }

  lemma {:induction false} LeastExists(keys: set<Str>) returns (k: Str)
    requires keys != {}
    ensures IsLeast(k, keys)
    decreases |keys|
  {
    k :| k in keys;
    var rest := keys - {k};
    if rest != {} {
      var m := LeastExists(rest);
      BeforeTrichotomy(k, m);
      if Before(m, k) {
        k := m;
      } else {
        forall j | j in rest ensures Before(k, j) {
          if j != m {
            BeforeTransitive(k, m, j);
          }
        }
      }
    }
  }

  lemma LeastUnique(keys: set<Str>)
    ensures forall a, b :: IsLeast(a, keys) && IsLeast(b, keys) ==> a == b
  {
    forall a, b | IsLeast(a, keys) && IsLeast(b, keys) ensures a == b {
      BeforeTrichotomy(a, b);
    }
  }

  function Least(keys: set<Str>): (k: Str)
    requires keys != {}
    ensures IsLeast(k, keys)
  {
    LeastUnique(keys);
    assert exists k :: IsLeast(k, keys) by {
      var m := LeastExists(keys);
    }
    var k :| IsLeast(k, keys);
    k
  }

  // The keys of an object in the order sort() leaves them.
  function SortedKeys(keys: set<Str>): (r: seq<Str>)
    ensures Ascending(r)
    ensures |r| == |keys|
    ensures forall k :: k in r <==> k in keys
    decreases |keys|
  {
    if keys == {} then []
    else
      var least := Least(keys);
      var tail := SortedKeys(keys - {least});
      assert forall i | 0 <= i < |tail| :: Before(least, tail[i]) by {
        forall i | 0 <= i < |tail| ensures Before(least, tail[i]) {
          assert tail[i] in tail;
        }
      }
      [least] + tail
  }

  lemma {:induction false} SameHead(a: seq<Str>, b: seq<Str>)
    requires a != [] && b != []
    requires Ascending(a) && Ascending(b)
    requires a[0] in b && b[0] in a
    ensures a[0] == b[0]
  {
    BeforeTrichotomy(a[0], b[0]);
  }

  lemma {:induction false} AscendingTail(a: seq<Str>, k: Str)
    requires a != [] && Ascending(a)
    ensures Ascending(a[1..])
    ensures k in a[1..] <==> k in a && k != a[0]
  {
    BeforeTrichotomy(a[0], a[0]);
    assert a == [a[0]] + a[1..];
    if k in a[1..] {
      var i :| 0 <= i < |a[1..]| && a[1..][i] == k;
      assert a[i + 1] == k;
    }
  }

  lemma {:induction false} AscendingUnique(a: seq<Str>, b: seq<Str>)
    requires Ascending(a) && Ascending(b)
    requires forall k :: k in a <==> k in b
    ensures a == b
  {
    assert a != [] ==> a[0] in a;
    assert b != [] ==> b[0] in b;
    if a != [] && b != [] {
      SameHead(a, b);
      forall k ensures k in a[1..] <==> k in b[1..] {
        AscendingTail(a, k);
        AscendingTail(b, k);
      }
      AscendingUnique(a[1..], b[1..]);
      assert a == [a[0]] + a[1..] && b == [b[0]] + b[1..];
    }
  }

  // However an object enumerates its keys, sorting them has one result.
  lemma SortedKeysUnique(keys: set<Str>, r: seq<Str>)
    requires Ascending(r)
    requires forall k :: k in r <==> k in keys
    ensures r == SortedKeys(keys)
  {
    AscendingUnique(r, SortedKeys(keys));
  }

  // ---------- Canonical text ----------

  function Canon(v: Json): Str
    decreases v, 2
  {
    match v
    case Null => NULL_TEXT
    case Bool(b) => if b then TRUE_TEXT else FALSE_TEXT
    case Num(text) => text
    case Infinite(_) => NULL_TEXT
    case Text(s) => Quote(s)
    case Arr(items) => [OPEN_BRACKET] + CanonItems(items) + [CLOSE_BRACKET]
    case Obj(fields) => [OPEN_BRACE] + CanonFields(v, SortedKeys(fields.Keys)) + [CLOSE_BRACE]
  }

  function CanonItems(items: seq<Json>): Str
    decreases items, 1
  {
    if items == [] then []
    else if |items| == 1 then Canon(items[0])
    else Canon(items[0]) + [COMMA] + CanonItems(items[1..])
  }

  function CanonField(v: Json, key: Str): Str
    requires v.Obj? && key in v.fields
    decreases v, 0
  {
    Quote(key) + [COLON] + Canon(v.fields[key])
  }

  function CanonFields(v: Json, keys: seq<Str>): Str
    requires v.Obj? && forall k | k in keys :: k in v.fields
    decreases v, 1, |keys|
  {
    if keys == [] then []
    else if |keys| == 1 then CanonField(v, keys[0])
    else CanonField(v, keys[0]) + [COMMA] + CanonFields(v, keys[1..])
  }

  // ---------- What canonical text can tell apart ----------

  // A value with its infinities replaced by null: JSON.stringify prints both as null.
  ghost function Squash(v: Json): Json
    decreases v, 1
  {
    match v
    case Infinite(_) => Null
    case Arr(items) => Arr(SquashAll(items))
    case Obj(fields) => Obj(map k | k in fields :: Squash(fields[k]))
    case _ => v
  }

  ghost function SquashAll(items: seq<Json>): (r: seq<Json>)
    ensures |r| == |items| && forall i | 0 <= i < |r| :: r[i] == Squash(items[i])
    decreases items, 0
  {
    if items == [] then [] else [Squash(items[0])] + SquashAll(items[1..])
  }

  ghost predicate Finite(v: Json) {
    match v
    case Infinite(_) => false
    case Arr(items) => forall i | 0 <= i < |items| :: Finite(items[i])
    case Obj(fields) => forall k | k in fields :: Finite(fields[k])
    case _ => true
  }

  // A value without infinities is fully represented by its canonical text.
  lemma {:induction false} SquashFinite(v: Json)
    requires Finite(v)
    ensures Squash(v) == v
  {
    match v
    case Arr(items) =>
      forall i | 0 <= i < |items| ensures Squash(items[i]) == items[i] {
        SquashFinite(items[i]);
      }
      assert SquashAll(items) == items;
    case Obj(fields) =>
      forall k | k in fields ensures Squash(fields[k]) == fields[k] {
        SquashFinite(fields[k]);
      }
      assert (map k | k in fields :: Squash(fields[k])) == fields;
    case _ =>
  }

  // Canonical text depends on nothing Squash removes.
  lemma {:induction false} CanonSquash(v: Json)
    ensures Canon(Squash(v)) == Canon(v)
    decreases v, 2
  {
    match v
    case Arr(items) => CanonItemsSquash(items);
    case Obj(fields) =>
      assert Squash(v).fields.Keys == fields.Keys;
      CanonFieldsSquash(v, SortedKeys(fields.Keys));
    case _ =>
  }

  lemma {:induction false} CanonItemsSquash(items: seq<Json>)
    ensures CanonItems(SquashAll(items)) == CanonItems(items)
    decreases items, 1
  {
    if items != [] {
      CanonSquash(items[0]);
      CanonItemsSquash(items[1..]);
      assert SquashAll(items)[1..] == SquashAll(items[1..]);
    }
  }

  lemma {:induction false} CanonFieldsSquash(v: Json, keys: seq<Str>)
    requires v.Obj? && forall k | k in keys :: k in v.fields
    ensures CanonFields(Squash(v), keys) == CanonFields(v, keys)
    decreases v, 1, |keys|
  {
    if keys != [] {
      CanonSquash(v.fields[keys[0]]);
      CanonFieldsSquash(v, keys[1..]);
    }
  }
}
