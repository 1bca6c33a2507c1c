// The upstream allowlist and the resolved-address check (packages/data-proxy/src/allowlist.ts).
module Allowlist {
  import opened Prelude

  // ---------- 32-bit addresses ----------

  datatype Quad = Quad(a: bv8, b: bv8, c: bv8, d: bv8)

  function Pack(q: Quad): bv32 {
    ((q.a as bv32) << 24) | ((q.b as bv32) << 16) | ((q.c as bv32) << 8) | (q.d as bv32)
  }

  function Octet(ip: bv32, shift: nat): bv32
    requires shift <= 24
  {
    (ip >> shift) & 0xff
  }

  // Packing four octets and taking them out again is a round trip, both ways.
  lemma PackedOctets(q: Quad)
    ensures Octet(Pack(q), 24) == q.a as bv32 && Octet(Pack(q), 16) == q.b as bv32
    ensures Octet(Pack(q), 8) == q.c as bv32 && Octet(Pack(q), 0) == q.d as bv32
  {
  }

  lemma OctetsPacked(ip: bv32)
    ensures (Octet(ip, 24) << 24) | (Octet(ip, 16) << 16) | (Octet(ip, 8) << 8) | Octet(ip, 0) == ip
  {
  }

  lemma PackInjective(q: Quad, r: Quad)
    requires Pack(q) == Pack(r)
    ensures q == r
  {
    hide Pack, Octet;
    PackedOctets(q);
    PackedOctets(r);
  }

  predicate IsBlockedIpv4(ip: bv32) {
    var a, b := Octet(ip, 24), Octet(ip, 16);
    || a == 127
    || a == 10
    || (a == 169 && b == 254)
    || (a == 172 && 16 <= b <= 31)
    || (a == 192 && b == 168)
    || a == 0
  }

  // A CIDR block as the interval of its first and last address.
  datatype Range = Range(first: bv32, last: bv32)

  // 127.0.0.0/8, 10.0.0.0/8, 169.254.0.0/16, 172.16.0.0/12, 192.168.0.0/16 and 0.0.0.0/8; the
  // private ones are those of section 3 of RFC 1918.
  const BLOCKED: seq<Range> := [
    Range(0x7f000000, 0x7fffffff),
    Range(0x0a000000, 0x0affffff),
    Range(0xa9fe0000, 0xa9feffff),
    Range(0xac100000, 0xac1fffff),
    Range(0xc0a80000, 0xc0a8ffff),
    Range(0x00000000, 0x00ffffff)]

  predicate Within(ip: bv32, r: Range) { r.first <= ip <= r.last }

  // The octet tests decide exactly the union of the intervals.
  lemma BlockedIsUnionOfRanges(ip: bv32)
    ensures IsBlockedIpv4(ip) <==> exists k | 0 <= k < |BLOCKED| :: Within(ip, BLOCKED[k])
  {
    assert IsBlockedIpv4(ip) <==>
           Within(ip, BLOCKED[0]) || Within(ip, BLOCKED[1]) || Within(ip, BLOCKED[2])
           || Within(ip, BLOCKED[3]) || Within(ip, BLOCKED[4]) || Within(ip, BLOCKED[5]);
  }

  // ---------- Dotted quads ----------

  // split("."): as many parts as dots and one more.
  function Split(s: string): (parts: seq<string>)
    ensures |parts| > 0
  {
    if s == "" then [""]
    else
      var front, c := Split(s[..|s| - 1]), s[|s| - 1];
      if c == '.' then front + [""] else front[|front| - 1 := front[|front| - 1] + [c]]
  }

  function Join(parts: seq<string>): string
    requires |parts| > 0
  {
    if |parts| == 1 then parts[0] else Join(parts[..|parts| - 1]) + "." + parts[|parts| - 1]
  }

  lemma {:induction false} SplitNext(x: string, y: string)
    requires '.' !in y
    ensures Split(x + "." + y) == Split(x) + [y]
  {
    if y == "" {
      assert (x + "." + y)[..|x|] == x;
    } else {
      var front := y[..|y| - 1];
      SplitNext(x, front);
      assert (x + "." + y)[..|x + "." + y| - 1] == x + "." + front;
      assert front + [y[|y| - 1]] == y;
    }
  }

  lemma {:induction false} SplitPlain(y: string)
    requires '.' !in y
    ensures Split(y) == [y]
  {
    if y != "" {
      SplitPlain(y[..|y| - 1]);
      assert y[..|y| - 1] + [y[|y| - 1]] == y;
    }
  }

  lemma {:induction false} JoinSplit(s: string)
    ensures Join(Split(s)) == s
    ensures forall k | 0 <= k < |Split(s)| :: '.' !in Split(s)[k]
  {
    if s != "" {
      var before, c := s[..|s| - 1], s[|s| - 1];
      JoinSplit(before);
      var front, parts := Split(before), Split(s);
      if c == '.' {
        assert parts[..|parts| - 1] == front;
      } else if |front| > 1 {
        assert parts[..|parts| - 1] == front[..|front| - 1];
      }
      assert s == before + [c];
    }
  }

  predicate AllDigits(p: string) { forall k | 0 <= k < |p| :: IsDigit(p[k]) }

  predicate OctetText(p: string) { 1 <= |p| <= 3 && AllDigits(p) }

  lemma {:induction false} DigitsValue(p: string)
    requires AllDigits(p)
    ensures DecimalValue(p) >= 0
  {
    if p != [] {
      DigitsValue(p[..|p| - 1]);
    }
  }

  function OctetOf(p: string): bv8
    requires AllDigits(p) && DecimalValue(p) <= 255
  {
    DigitsValue(p);
    DecimalValue(p) as bv8
  }

  // Four components of one to three digits, none over 255; leading zeros are read as decimal.
  function ParseQuad(host: string): Option<Quad> {
    var p := Split(host);
    if |p| != 4 || !(OctetText(p[0]) && OctetText(p[1]) && OctetText(p[2]) && OctetText(p[3])) then None
    else if DecimalValue(p[0]) > 255 || DecimalValue(p[1]) > 255 || DecimalValue(p[2]) > 255 || DecimalValue(p[3]) > 255
    then None
    else Some(Quad(OctetOf(p[0]), OctetOf(p[1]), OctetOf(p[2]), OctetOf(p[3])))
  }

  function ParseDottedQuad(host: string): Option<bv32> {
    var q := ParseQuad(host);
    if q.None? then None else Some(Pack(q.value))
  }

  function DigitOf(c: char): int { c as int - '0' as int }

  // One to three decimal digits stand for their ones, tens and hundreds.
  function ValueOf(p: string): int
    requires 1 <= |p| <= 3
  {
    match |p|
    case 1 => DigitOf(p[0])
    case 2 => 10 * DigitOf(p[0]) + DigitOf(p[1])
    case _ => 100 * DigitOf(p[0]) + 10 * DigitOf(p[1]) + DigitOf(p[2])
  }

  // p spells the octet in decimal digits.
  predicate Spells(p: string, octet: bv8) {
    1 <= |p| <= 3 && (forall k | 0 <= k < |p| :: '0' <= p[k] <= '9') && ValueOf(p) <= 255 && octet == ValueOf(p) as bv8
  }

  lemma SpellsExactly(p: string, octet: bv8)
    ensures Spells(p, octet) <==> OctetText(p) && DecimalValue(p) <= 255 && OctetOf(p) == octet
  {
    hide DecimalValue, DigitOf;
    if 1 <= |p| <= 3 {
      ShortValue(p);
    }
  }

  lemma ShortValue(p: string)
    requires 1 <= |p| <= 3
    ensures DecimalValue(p) == ValueOf(p)
  {
    hide DecimalValue, DigitOf;
    ValueStep(p);
    if |p| > 1 {
      ValueStep(p[..|p| - 1]);
    }
    if |p| > 2 {
      ValueStep(p[..1]);
      assert p[..2][..1] == p[..1] && p[..1] == [p[0]];
    }
    assert p[..1][..0] == "";
  }

  lemma ValueStep(p: string)
    requires p != ""
    ensures DecimalValue(p) == 10 * DecimalValue(p[..|p| - 1]) + DigitOf(p[|p| - 1])
    ensures DecimalValue("") == 0
  {
  }

  ghost predicate SpellsQuad(host: string, q: Quad) {
    exists a, b, c, d ::
      host == Join([a, b, c, d]) && Spells(a, q.a) && Spells(b, q.b) && Spells(c, q.c) && Spells(d, q.d)
  }

  lemma QuadText(a: string, b: string, c: string, d: string)
    ensures Join([a, b, c, d]) == a + "." + b + "." + c + "." + d
  {
    assert [a, b, c, d][..3] == [a, b, c];
    assert [a, b, c][..2] == [a, b];
    assert [a, b][..1] == [a];
    assert Join([a]) == a && Join([a, b]) == a + "." + b && Join([a, b, c]) == a + "." + b + "." + c;
  }

  lemma SplitQuad(a: string, b: string, c: string, d: string)
    requires OctetText(a) && OctetText(b) && OctetText(c) && OctetText(d)
    ensures Split(Join([a, b, c, d])) == [a, b, c, d]
  {
    hide Split, Join;
    QuadText(a, b, c, d);
    SplitPlain(a);
    SplitNext(a, b);
    SplitNext(a + "." + b, c);
    SplitNext(a + "." + b + "." + c, d);
  }

  // A text parses to an address if and only if it spells that address's four octets.
  lemma ParsesExactly(host: string, q: Quad)
    ensures ParseDottedQuad(host) == Some(Pack(q)) <==> SpellsQuad(host, q)
  {
    hide Split, Join, Pack, OctetText, DecimalValue, OctetOf, Spells;
    if SpellsQuad(host, q) {
      var a, b, c, d :| host == Join([a, b, c, d]) && Spells(a, q.a) && Spells(b, q.b) && Spells(c, q.c) && Spells(d, q.d);
      SpellsExactly(a, q.a);
      SpellsExactly(b, q.b);
      SpellsExactly(c, q.c);
      SpellsExactly(d, q.d);
      SplitQuad(a, b, c, d);
    }
    if ParseDottedQuad(host) == Some(Pack(q)) {
      var p := Split(host);
      JoinSplit(host);
      assert p == [p[0], p[1], p[2], p[3]];
      PackInjective(ParseQuad(host).value, q);
      SpellsExactly(p[0], q.a);
      SpellsExactly(p[1], q.b);
      SpellsExactly(p[2], q.c);
      SpellsExactly(p[3], q.d);
      assert Spells(p[0], q.a) && Spells(p[1], q.b) && Spells(p[2], q.c) && Spells(p[3], q.d);
    }
  }

  function Dotted(q: Quad): string {
    Join([Decimal(q.a as int), Decimal(q.b as int), Decimal(q.c as int), Decimal(q.d as int)])
  }

  lemma OctetSpelled(o: bv8)
    ensures Spells(Decimal(o as int), o)
  {
    DecimalReadsBack(o as int);
    assert Pow10(3) == 1000;
    DecimalLength(o as int, 3);
    SpellsExactly(Decimal(o as int), o);
  }

  lemma DottedReadsBack(q: Quad)
    ensures ParseDottedQuad(Dotted(q)) == Some(Pack(q))
  {
    hide Join, Spells, ParseDottedQuad, Pack, Decimal;
    OctetSpelled(q.a);
    OctetSpelled(q.b);
    OctetSpelled(q.c);
    OctetSpelled(q.d);
    ParsesExactly(Dotted(q), q);
  }

  // ---------- Names ----------

  predicate IsHex(c: char) { IsDigit(c) || 'a' <= c <= 'f' || 'A' <= c <= 'F' }

  // A decimal, octal or 0x component.
  predicate NumericPart(p: string) {
    || (|p| > 0 && AllDigits(p))
    || (|p| > 2 && p[0] == '0' && (p[1] == 'x' || p[1] == 'X') && forall k | 2 <= k < |p| :: IsHex(p[k]))
  }

  predicate LooksNumericHost(host: string) {
    || NumericPart(host)
    || (|Split(host)| >= 2 && forall k | 0 <= k < |Split(host)| :: NumericPart(Split(host)[k]))
  }

  function NormalizeHost(host: string): string {
    var h := Lower(host);
    if h != "" && h[|h| - 1] == '.' then h[..|h| - 1] else h
  }

  function StripBrackets(host: string): string {
    var h := if host != "" && host[0] == '[' then host[1..] else host;
    if h != "" && h[|h| - 1] == ']' then h[..|h| - 1] else h
  }

  predicate IsAllowlisted(host: string, allowlist: seq<string>) {
    exists k | 0 <= k < |allowlist| :: NormalizeHost(allowlist[k]) == NormalizeHost(host)
  }

  // The host of the requested URL, None when it does not parse.
  function NormalizeAndCheckHost(rawHost: Option<string>, allowlist: seq<string>): Option<string> {
    if rawHost.None? || rawHost.value == "" then None
    else
      var host := NormalizeHost(StripBrackets(rawHost.value));
      if host == "localhost" || ':' in host || LooksNumericHost(host) || !IsAllowlisted(host, allowlist) then None
      else Some(host)
  }

  // ---------- Which hosts pass ----------

  // A number as inet_aton reads it: decimal or octal digits, or hexadecimal digits after 0x.
  ghost predicate SpellsNumber(p: string) {
    || (p != "" && forall k | 0 <= k < |p| :: p[k] in "0123456789")
    || (exists h :: SpellsHex(p, h))
  }

  // Numbers with dots between them; inet_aton reads one to four as an address.
  ghost predicate SpellsNumbers(host: string, parts: seq<string>) {
    parts != [] && host == Join(parts) && forall k | 0 <= k < |parts| :: SpellsNumber(parts[k])
  }

  // The host without a leading and a trailing square bracket.
  predicate Unbracketed(bare: string, raw: string, open: bool, close: bool) {
    && raw == (if open then "[" else "") + bare + (if close then "]" else "")
    && (!open ==> raw == "" || raw[0] != '[')
    && (!close ==> bare == "" || bare[|bare| - 1] != ']')
  }

  // The name without the one dot it may end with.
  predicate Unrooted(name: string, s: string) {
    s == name + "." || (s == name && (s == "" || s[|s| - 1] != '.'))
  }

  // The host that is asked for: no brackets, no capitals, no dot at its end.
  ghost predicate AsksFor(raw: string, host: string) {
    exists bare, open, close, low ::
      Unbracketed(bare, raw, open, close) && SameLetters(bare, low) && NoCapitals(low) && Unrooted(host, low)
  }

  // An entry names a host up to letter case and a dot at the end of either.
  ghost predicate Names(entry: string, host: string) {
    exists low, name :: SameLetters(entry, low) && NoCapitals(low) && Unrooted(name, low) && Unrooted(name, host)
  }

  lemma BareExactly(bare: string, raw: string)
    ensures StripBrackets(raw) == bare <==> exists open, close :: Unbracketed(bare, raw, open, close)
  {
    var open := raw != "" && raw[0] == '[';
    var h := if open then raw[1..] else raw;
    var close := h != "" && h[|h| - 1] == ']';
    var b := if close then h[..|h| - 1] else h;
    assert Unbracketed(b, raw, open, close);
    if o, c :| Unbracketed(bare, raw, o, c) {
      UnbracketedOnce(bare, b, raw, o, c, open, close);
    }
  }

  lemma UnbracketedOnce(a: string, b: string, raw: string, open: bool, close: bool, o: bool, c: bool)
    requires Unbracketed(a, raw, open, close) && Unbracketed(b, raw, o, c)
    ensures a == b
  {
    assert open == o;
    var ta, tb := a + (if close then "]" else ""), b + (if c then "]" else "");
    var n := if o then 1 else 0;
    assert raw[n..] == ta && raw[n..] == tb;
    assert ta[..|a|] == a && tb[..|b|] == b;
  }

  lemma UnrootedExactly(name: string, s: string)
    ensures Unrooted(name, s) <==> name == if s != "" && s[|s| - 1] == '.' then s[..|s| - 1] else s
  {
  }

  lemma LowUnique(s: string, low: string)
    ensures SameLetters(s, low) && NoCapitals(low) <==> low == Lower(s)
  {
    LowerExactly(s, low);
    LowerExactly(low, low);
    if SameLetters(s, low) && NoCapitals(low) {
      assert Lower(low) == low;
    }
  }

  lemma AsksExactly(raw: string, host: string)
    ensures AsksFor(raw, host) <==> host == NormalizeHost(StripBrackets(raw))
  {
    hide StripBrackets, Lower, SameLetters, NoCapitals, Unbracketed;
    var bare := StripBrackets(raw);
    BareExactly(bare, raw);
    LowUnique(bare, Lower(bare));
    UnrootedExactly(host, Lower(bare));
    if b, open, close, low :| Unbracketed(b, raw, open, close) && SameLetters(b, low) && NoCapitals(low) && Unrooted(host, low) {
      BareExactly(b, raw);
      LowUnique(b, low);
    }
  }

  lemma NamesExactly(entry: string, host: string)
    requires NoCapitals(host)
    ensures Names(entry, host) <==> NormalizeHost(entry) == NormalizeHost(host)
  {
    hide Lower, SameLetters;
    LowUnique(entry, Lower(entry));
    LowUnique(host, host);
    LowerExactly(host, host);
    UnrootedExactly(NormalizeHost(entry), Lower(entry));
    UnrootedExactly(NormalizeHost(host), host);
    if low, name :| SameLetters(entry, low) && NoCapitals(low) && Unrooted(name, low) && Unrooted(name, host) {
      LowUnique(entry, low);
      UnrootedExactly(name, low);
      UnrootedExactly(name, host);
    }
  }

  lemma DigitChars(c: char)
    ensures c in "0123456789" <==> IsDigit(c)
    ensures c in "0123456789abcdefABCDEF" <==> IsHex(c)
  {
  }

  ghost predicate SpellsHex(p: string, h: string) {
    h != "" && (p == "0x" + h || p == "0X" + h) && forall k | 0 <= k < |h| :: h[k] in "0123456789abcdefABCDEF"
  }

  lemma HexIsNumeric(p: string, h: string)
    requires SpellsHex(p, h)
    ensures NumericPart(p) && '.' !in p
  {
    forall k | 2 <= k < |p| ensures IsHex(p[k]) {
      assert p[k] == h[k - 2];
      DigitChars(p[k]);
    }
  }

  lemma NumericIsHex(p: string)
    requires NumericPart(p) && !(p != "" && AllDigits(p))
    ensures SpellsHex(p, p[2..])
  {
    assert p[..2] == "0x" || p[..2] == "0X";
    assert p == p[..2] + p[2..];
    forall k | 0 <= k < |p[2..]| ensures p[2..][k] in "0123456789abcdefABCDEF" {
      assert p[2..][k] == p[k + 2] && IsHex(p[k + 2]);
      DigitChars(p[k + 2]);
    }
  }

  lemma NumberExactly(p: string)
    ensures NumericPart(p) <==> SpellsNumber(p)
    ensures SpellsNumber(p) ==> '.' !in p
  {
    hide IsHex, SpellsHex;
    forall k | 0 <= k < |p| ensures p[k] in "0123456789" <==> IsDigit(p[k]) {
      DigitChars(p[k]);
    }
    if h :| SpellsHex(p, h) {
      HexIsNumeric(p, h);
    } else if NumericPart(p) && !(p != "" && AllDigits(p)) {
      NumericIsHex(p);
    }
  }

  lemma {:induction false} SplitJoin(parts: seq<string>)
    requires parts != [] && forall k | 0 <= k < |parts| :: '.' !in parts[k]
    ensures Split(Join(parts)) == parts
  {
    var n := |parts| - 1;
    if n == 0 {
      SplitPlain(parts[0]);
    } else {
      SplitJoin(parts[..n]);
      SplitNext(Join(parts[..n]), parts[n]);
      assert parts == parts[..n] + [parts[n]];
    }
  }

  // The numeric test refuses exactly the numbers with dots between them, however many.
  lemma NumericExactly(host: string)
    ensures LooksNumericHost(host) <==> exists parts :: SpellsNumbers(host, parts)
  {
    hide Split, Join, NumericPart, SpellsNumber;
    if parts :| SpellsNumbers(host, parts) {
      forall k | 0 <= k < |parts| ensures NumericPart(parts[k]) && '.' !in parts[k] {
        NumberExactly(parts[k]);
      }
      SplitJoin(parts);
      if |parts| == 1 {
        JoinOne(parts);
      }
    }
    if LooksNumericHost(host) {
      NumberExactly(host);
      var parts := if NumericPart(host) then [host] else Split(host);
      JoinSplit(host);
      JoinOne([host]);
      forall k | 0 <= k < |parts| ensures SpellsNumber(parts[k]) {
        NumberExactly(parts[k]);
      }
      assert SpellsNumbers(host, parts);
    }
  }

  lemma JoinOne(parts: seq<string>)
    requires |parts| == 1
    ensures Join(parts) == parts[0]
  {
  }

  // Default deny: a request passes, as this host, if and only if that is the host it asks for, some
  // entry of the allowlist names it, and it is no loopback name, no IPv6 literal and no number.
  lemma PassesExactly(rawHost: Option<string>, allowlist: seq<string>, host: string)
    ensures NormalizeAndCheckHost(rawHost, allowlist) == Some(host)
       <==> && rawHost.Some? && rawHost.value != "" && AsksFor(rawHost.value, host)
            && (exists k | 0 <= k < |allowlist| :: Names(allowlist[k], host))
            && host != "localhost" && ':' !in host && !(exists parts :: SpellsNumbers(host, parts))
  {
    hide Names, AsksFor, SpellsNumbers, StripBrackets, Lower, LooksNumericHost;
    if rawHost.Some? {
      AsksExactly(rawHost.value, host);
      NumericExactly(host);
      if host == NormalizeHost(StripBrackets(rawHost.value)) {
        HostIsLow(StripBrackets(rawHost.value));
        forall k | 0 <= k < |allowlist| ensures Names(allowlist[k], host) <==> NormalizeHost(allowlist[k]) == NormalizeHost(host) {
          NamesExactly(allowlist[k], host);
        }
      }
    }
  }

  lemma HostIsLow(s: string)
    ensures NoCapitals(NormalizeHost(s))
  {
    LowerExactly(s, s);
  }

  // So nothing that passes is an IPv4 address in a spelling of inet_aton, whatever the allowlist holds.
  lemma LiteralsNeverPass(rawHost: Option<string>, allowlist: seq<string>)
    ensures var r := NormalizeAndCheckHost(rawHost, allowlist);
            r.Some? ==> ParseDottedQuad(r.value) == None && ':' !in r.value && r.value != "localhost"
                        && !(exists parts :: SpellsNumbers(r.value, parts))
  {
    hide Split, Pack, DecimalValue, LooksNumericHost, SpellsNumbers, ParseDottedQuad, AsksFor, Names;
    var r := NormalizeAndCheckHost(rawHost, allowlist);
    if r.Some? {
      PassesExactly(rawHost, allowlist, r.value);
      NumericExactly(r.value);
      QuadsLookNumeric(r.value);
    }
  }

  lemma QuadsLookNumeric(host: string)
    ensures ParseDottedQuad(host).Some? ==> LooksNumericHost(host)
  {
    hide Split, Pack, DecimalValue;
  }

  // ---------- Resolved addresses ----------

  datatype DnsRecord = DnsRecord(address: string, family: int)

  datatype Reason = PreFilter | ResolveFailed | NoAddresses | ResolvedToBlocked

  datatype Resolved = Accepted(host: string, addresses: seq<DnsRecord>) | Rejected(reason: Reason)

  // Anything that is not family 6 is read as IPv4; how an IPv6 text is classified is a parameter.
  predicate Public(blocked6: string -> bool, r: DnsRecord) {
    if r.family == 6 then !blocked6(r.address)
    else ParseDottedQuad(r.address).Some? && !IsBlockedIpv4(ParseDottedQuad(r.address).value)
  }

  function Pinned(r: DnsRecord): DnsRecord { r.(family := if r.family == 6 then 6 else 4) }

  // Accepted exactly when every record passes, and then with every record in its order.
  method ResolveAndCheckHost(pre: Option<string>, records: Option<seq<DnsRecord>>, blocked6: string -> bool)
    returns (r: Resolved)
    ensures r.Accepted? <==> pre.Some? && records.Some? && records.value != []
                             && forall k | 0 <= k < |records.value| :: Public(blocked6, records.value[k])
    ensures r.Accepted? ==> r.host == pre.value && |r.addresses| == |records.value|
                            && forall k | 0 <= k < |r.addresses| :: r.addresses[k] == Pinned(records.value[k])
    ensures r == Rejected(PreFilter) <==> pre.None?
    ensures r == Rejected(ResolveFailed) <==> pre.Some? && records.None?
    ensures r == Rejected(NoAddresses) <==> pre.Some? && records == Some([])
  {
    hide ParseDottedQuad, IsBlockedIpv4;
    if pre.None? {
      return Rejected(PreFilter);
    }
    if records.None? {
      return Rejected(ResolveFailed);
    }
    if records.value == [] {
      return Rejected(NoAddresses);
    }
    var validated: seq<DnsRecord> := [];
    for k := 0 to |records.value|
      invariant |validated| == k
      invariant forall i | 0 <= i < k :: Public(blocked6, records.value[i]) && validated[i] == Pinned(records.value[i])
    {
      var rec := records.value[k];
      if rec.family == 6 {
        if blocked6(rec.address) {
          return Rejected(ResolvedToBlocked);
        }
        validated := validated + [DnsRecord(rec.address, 6)];
        continue;
      }
      var asV4 := ParseDottedQuad(rec.address);
      if asV4.None? || IsBlockedIpv4(asV4.value) {
        return Rejected(ResolvedToBlocked);
      }
      validated := validated + [DnsRecord(rec.address, 4)];
    }
    return Accepted(pre.value, validated);
  }

  lemma ParsedQuad(host: string) returns (q: Quad)
    requires ParseDottedQuad(host).Some?
    ensures ParseDottedQuad(host) == Some(Pack(q))
  {
    q := ParseQuad(host).value;
  }

  // An IPv4 record passes if and only if it spells an address outside every blocked block.
  lemma PublicIsOutside(blocked6: string -> bool, r: DnsRecord)
    requires r.family != 6
    ensures Public(blocked6, r)
       <==> exists q :: SpellsQuad(r.address, q) && forall k | 0 <= k < |BLOCKED| :: !Within(Pack(q), BLOCKED[k])
  {
    hide ParseDottedQuad, SpellsQuad, IsBlockedIpv4, Pack, Within;
    if Public(blocked6, r) {
      var q := ParsedQuad(r.address);
      ParsesExactly(r.address, q);
      BlockedIsUnionOfRanges(Pack(q));
    }
    if q :| SpellsQuad(r.address, q) && forall k | 0 <= k < |BLOCKED| :: !Within(Pack(q), BLOCKED[k]) {
      ParsesExactly(r.address, q);
      BlockedIsUnionOfRanges(Pack(q));
    }
  }
}
