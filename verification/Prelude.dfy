// Shared vocabulary: optional values, decimal numerals and sums over finite sets.
module Prelude {

  datatype Option<+T> = None | Some(value: T) {
    function GetOr(default: T): T {
      if Some? then value else default
    }
  }

  predicate IsDigit(c: char) {
    '0' <= c <= '9'
  }

  // ---------- Decimal numerals ----------

  // The decimal numeral a template literal prints for a non-negative integer.
  function Decimal(n: nat): (s: string)
    ensures |s| > 0 && forall i | 0 <= i < |s| :: IsDigit(s[i])
    ensures |s| > 1 ==> s[0] != '0'
    ensures s[0] == '0' ==> n == 0
  {
    var last := ['0' + (n % 10) as char];
    if n < 10 then last else Decimal(n / 10) + last
  }

  function DecimalValue(s: string): int {
    if s == [] then 0 else 10 * DecimalValue(s[..|s| - 1]) + (s[|s| - 1] as int - '0' as int)
  }

  lemma {:induction false} DecimalReadsBack(n: nat)
    ensures DecimalValue(Decimal(n)) == n
  {
    var last := ['0' + (n % 10) as char];
    if n < 10 {
      assert last[..0] == [];
    } else {
      DecimalReadsBack(n / 10);
      var s := Decimal(n / 10) + last;
      assert s[..|s| - 1] == Decimal(n / 10);
    }
  }

  lemma DecimalInjective(m: nat, n: nat)
    requires Decimal(m) == Decimal(n)
    ensures m == n
  {
    DecimalReadsBack(m);
    DecimalReadsBack(n);
  }

  function Pow10(k: nat): nat {
    if k == 0 then 1 else 10 * Pow10(k - 1)
  }

  lemma {:induction false} DecimalLength(n: nat, k: nat)
    requires 0 < k && n < Pow10(k)
    ensures |Decimal(n)| <= k
  {
    if n >= 10 {
      DecimalLength(n / 10, k - 1);
    }
  }

  // ---------- Letter case ----------

  function LowerChar(c: char): char {
    if 'A' <= c <= 'Z' then c + 32 as char else c
  }

  // toLowerCase on ASCII text: hexadecimal ids, addresses and names.
  function Lower(s: string): (r: string)
    ensures |r| == |s| && forall i | 0 <= i < |s| :: r[i] == LowerChar(s[i])
  {
    seq(|s|, i requires 0 <= i < |s| => LowerChar(s[i]))
  }

  // Texts that differ in the case of ASCII letters alone.
  predicate SameLetter(c: char, d: char) {
    c == d || ('A' <= c <= 'Z' && d as int == c as int + 32) || ('A' <= d <= 'Z' && c as int == d as int + 32)
  }

  predicate SameLetters(a: string, b: string) {
    |a| == |b| && forall i | 0 <= i < |a| :: SameLetter(a[i], b[i])
  }

  predicate NoCapitals(s: string) { forall i | 0 <= i < |s| :: !('A' <= s[i] <= 'Z') }

  // Lower-casing forgets the case of letters and nothing else.
  lemma LowerExactly(a: string, b: string)
    ensures Lower(a) == Lower(b) <==> SameLetters(a, b)
    ensures SameLetters(a, Lower(a)) && NoCapitals(Lower(a))
  {
    if Lower(a) == Lower(b) {
      forall i | 0 <= i < |a| ensures SameLetter(a[i], b[i]) {
        assert Lower(a)[i] == Lower(b)[i];
      }
    }
  }

  // ---------- Splitting at the first separator ----------

  lemma Regroup<T>(a: seq<T>, b: seq<T>, c: seq<T>)
    ensures (a + b) + c == a + (b + c)
  {
  }

  // Two texts whose heads contain no separator agree only piecewise.
  lemma {:induction false} SplitUnique<T>(a: seq<T>, x: seq<T>, b: seq<T>, y: seq<T>, sep: T)
    requires sep !in a && sep !in b
    requires a + [sep] + x == b + [sep] + y
    ensures a == b && x == y
  {
    var s := a + [sep] + x;
    var t := b + [sep] + y;
    assert s[|a|] == sep && t[|b|] == sep;
    if |a| < |b| {
      assert false;
    } else if |b| < |a| {
      assert false;
    } else {
      assert a == s[..|a|] == t[..|b|] == b;
      assert x == s[|a| + 1..] == t[|b| + 1..] == y;
    }
  }

  // ---------- Sums ----------

  // The sum of the weights of the keys in a finite set; absent keys weigh nothing.
  ghost function Sum<K>(keys: set<K>, weight: map<K, int>): int {
    if keys == {} then 0
    else
      var k :| k in keys;
      Weight(k, weight) + Sum(keys - {k}, weight)
  }

  function Weight<K(==)>(k: K, weight: map<K, int>): int {
    if k in weight then weight[k] else 0
  }

  lemma {:induction false} SumRemove<K>(keys: set<K>, weight: map<K, int>, k: K)
    requires k in keys
    ensures Sum(keys, weight) == Weight(k, weight) + Sum(keys - {k}, weight)
    decreases |keys|
  {
    var j :| j in keys && Sum(keys, weight) == Weight(j, weight) + Sum(keys - {j}, weight);
    if j != k {
      SumRemove(keys - {j}, weight, k);
      SumRemove(keys - {k}, weight, j);
      assert keys - {j} - {k} == keys - {k} - {j};
    }
  }

  lemma {:induction false} SumAdd<K>(keys: set<K>, weight: map<K, int>, k: K)
    requires k !in keys
    ensures Sum(keys + {k}, weight) == Sum(keys, weight) + Weight(k, weight)
  {
    SumRemove(keys + {k}, weight, k);
    assert keys + {k} - {k} == keys;
  }

  lemma {:induction false} SumSame<K>(keys: set<K>, a: map<K, int>, b: map<K, int>)
    requires forall k | k in keys :: Weight(k, a) == Weight(k, b)
    ensures Sum(keys, a) == Sum(keys, b)
    decreases |keys|
  {
    if keys != {} {
      var k :| k in keys;
      SumRemove(keys, a, k);
      SumRemove(keys, b, k);
      SumSame(keys - {k}, a, b);
    }
  }

  lemma {:induction false} SumAtMost<K>(keys: set<K>, a: map<K, int>, b: map<K, int>)
    requires forall k | k in keys :: Weight(k, a) <= Weight(k, b)
    ensures Sum(keys, a) <= Sum(keys, b)
    decreases |keys|
  {
    if keys != {} {
      var k :| k in keys;
      SumRemove(keys, a, k);
      SumRemove(keys, b, k);
      SumAtMost(keys - {k}, a, b);
    }
  }

  lemma {:induction false} SumPlus<K>(keys: set<K>, a: map<K, int>, b: map<K, int>, c: map<K, int>)
    requires forall k | k in keys :: Weight(k, c) == Weight(k, a) + Weight(k, b)
    ensures Sum(keys, c) == Sum(keys, a) + Sum(keys, b)
    decreases |keys|
  {
    if keys != {} {
      var k :| k in keys;
      SumRemove(keys, a, k);
      SumRemove(keys, b, k);
      SumRemove(keys, c, k);
      SumPlus(keys - {k}, a, b, c);
    }
  }

  lemma {:induction false} SumMonotone<K>(small: set<K>, large: set<K>, weight: map<K, int>)
    requires small <= large
    requires forall k | k in large :: 0 <= Weight(k, weight)
    ensures 0 <= Sum(small, weight) <= Sum(large, weight)
    decreases |large|
  {
    if large != {} {
      var k :| k in large;
      SumRemove(large, weight, k);
      if k in small {
        SumRemove(small, weight, k);
        SumMonotone(small - {k}, large - {k}, weight);
      } else {
        SumMonotone(small, large - {k}, weight);
      }
    } else {
      assert small == {};
    }
  }
}
