// The response-cache key (services/deployer/src/cache.ts) and what two requests sharing it share.
module CacheKey {
  import opened Prelude
  import opened JsonText
  import opened JsonGrammar
  import opened JsonReader

  datatype Request = Request(verb: Str, path: Str, query: Option<map<Str, Str>>, body: Option<Str>)

  function UpperUnit(u: Unit): Unit {
    if 97 <= u <= 122 then u - 32 else u
  }

  function Upper(s: Str): (r: Str)
    ensures |r| == |s| && forall i | 0 <= i < |s| :: r[i] == UpperUnit(s[i])
  {
    seq(|s|, i requires 0 <= i < |s| => UpperUnit(s[i]))
  }

  function QueryOf(r: Request): map<Str, Str> { r.query.GetOr(map[]) }

  // ---------- Key material ----------

  function CanonQuery(query: map<Str, Str>): Str {
    [OPEN_BRACE] + QueryFields(query, SortedKeys(query.Keys)) + [CLOSE_BRACE]
  }

  function QueryFields(query: map<Str, Str>, keys: seq<Str>): Str
    requires forall k | k in keys :: k in query
  {
    if keys == [] then []
    else
      var field := Quote(keys[0]) + [COLON] + Quote(query[keys[0]]);
      if |keys| == 1 then field else field + [COMMA] + QueryFields(query, keys[1..])
  }

  function CanonBody(body: Option<Str>, numbers: Numbers): Str {
    if body.None? then []
    else
      var v := Parse(body.value, numbers);
      if v.Some? then Canon(v.value) else body.value
  }

  function Material(r: Request, numbers: Numbers): Str {
    Upper(r.verb) + [NEWLINE] + (r.path + [NEWLINE]
      + (CanonQuery(QueryOf(r)) + [NEWLINE] + CanonBody(r.body, numbers)))
  }

  // ---------- What a request means ----------

  // The body is a JSON text that stands for this value, whatever white space, escapes and order of
  // members it is written with.
  ghost predicate Carries(body: Option<Str>, v: Json, numbers: Numbers) {
    body.Some? && exists e :: IsTextOf(e, body.value, v, numbers)
  }

  function RawText(body: Option<Str>): Str { body.GetOr([]) }

  // Bodies carry one value, up to infinities and nulls, or neither carries any and their texts agree;
  // no body is the empty text.
  ghost predicate SameBody(a: Option<Str>, b: Option<Str>, numbers: Numbers) {
    || (exists v, w :: Carries(a, v, numbers) && Carries(b, w, numbers) && Squash(v) == Squash(w))
    || ((forall v :: !Carries(a, v, numbers)) && (forall v :: !Carries(b, v, numbers)) && RawText(a) == RawText(b))
  }

  // Letters that differ in case alone.
  predicate SameLetter(u: Unit, v: Unit) {
    u == v || (0x41 <= u <= 0x5A && v == u + 32) || (0x41 <= v <= 0x5A && u == v + 32)
  }

  predicate SameVerb(a: Str, b: Str) {
    |a| == |b| && forall k | 0 <= k < |a| :: SameLetter(a[k], b[k])
  }

  // One map of query fields; no query is the empty one.
  predicate SameQuery(a: Option<map<Str, Str>>, b: Option<map<Str, Str>>) {
    match (a, b)
    case (Some(p), Some(q)) => p == q
    case (Some(p), None) => p == map[]
    case (None, Some(q)) => q == map[]
    case (None, None) => true
  }

  ghost predicate SameRequest(a: Request, b: Request, numbers: Numbers) {
    && SameVerb(a.verb, b.verb)
    && a.path == b.path
    && SameQuery(a.query, b.query)
    && SameBody(a.body, b.body, numbers)
  }

  lemma UpperExactly(a: Str, b: Str)
    ensures Upper(a) == Upper(b) <==> SameVerb(a, b)
    ensures SameVerb(a, Upper(a)) && forall k | 0 <= k < |a| :: !(0x61 <= Upper(a)[k] <= 0x7A)
  {
    if Upper(a) == Upper(b) {
      forall k | 0 <= k < |a| ensures SameLetter(a[k], b[k]) {
        assert Upper(a)[k] == Upper(b)[k];
      }
    }
  }

  // HTTP admits no line break in a method or a path (section 2.2 of RFC 9112).
  predicate SingleLine(r: Request) {
    NEWLINE !in r.verb && NEWLINE !in r.path
  }

  // ---------- The query part ----------

  ghost function QueryObject(query: map<Str, Str>): Json {
    Obj(map k | k in query :: Text(query[k]))
  }

  lemma {:induction false} QueryFieldsAreCanon(query: map<Str, Str>, keys: seq<Str>)
    requires forall k | k in keys :: k in query
    ensures QueryFields(query, keys) == CanonFields(QueryObject(query), keys)
  {
    if keys != [] {
      assert Canon(QueryObject(query).fields[keys[0]]) == Quote(query[keys[0]]);
      QueryFieldsAreCanon(query, keys[1..]);
    }
  }

  lemma QueryIsObject(query: map<Str, Str>)
    ensures CanonQuery(query) == Canon(QueryObject(query))
  {
    assert QueryObject(query).fields.Keys == query.Keys;
    QueryFieldsAreCanon(query, SortedKeys(query.Keys));
  }

  lemma QueryObjectInjective(a: map<Str, Str>, b: map<Str, Str>)
    requires QueryObject(a) == QueryObject(b)
    ensures a == b
  {
    var va, vb := QueryObject(a).fields, QueryObject(b).fields;
    assert a.Keys == va.Keys == vb.Keys == b.Keys;
    forall k | k in a ensures a[k] == b[k] {
      assert va[k] == Text(a[k]) && vb[k] == Text(b[k]);
    }
  }

  lemma QueryObjectPlain(query: map<Str, Str>, numbers: Numbers)
    ensures WellFormed(QueryObject(query), numbers)
    ensures Squash(QueryObject(query)) == QueryObject(query)
  {
    SquashFinite(QueryObject(query));
  }

  lemma QueryInjective(a: map<Str, Str>, b: map<Str, Str>, numbers: Numbers)
    requires CanonQuery(a) == CanonQuery(b)
    ensures a == b
  {
    hide Canon, CanonQuery, QueryObject, Squash, WellFormed;
    QueryIsObject(a);
    QueryIsObject(b);
    QueryObjectPlain(a, numbers);
    QueryObjectPlain(b, numbers);
    CanonInjective(QueryObject(a), QueryObject(b), numbers);
    QueryObjectInjective(a, b);
  }

  lemma {:induction false} QuoteSingleLine(s: Str)
    ensures NEWLINE !in QuoteBody(s)
  {
    if s != [] {
      if IsHigh(s[0]) && |s| > 1 && IsLow(s[1]) {
        QuoteSingleLine(s[2..]);
      } else {
        QuoteSingleLine(s[1..]);
        assert NEWLINE !in QuoteUnit(s[0], IsHigh(s[0]) || IsLow(s[0]));
      }
    }
  }

  lemma {:induction false} QueryFieldsSingleLine(query: map<Str, Str>, keys: seq<Str>)
    requires forall k | k in keys :: k in query
    ensures NEWLINE !in QueryFields(query, keys)
  {
    if keys != [] {
      QuoteSingleLine(keys[0]);
      QuoteSingleLine(query[keys[0]]);
      QueryFieldsSingleLine(query, keys[1..]);
    }
  }

  lemma QuerySingleLine(query: map<Str, Str>)
    ensures NEWLINE !in CanonQuery(query)
  {
    QueryFieldsSingleLine(query, SortedKeys(query.Keys));
  }

  // ---------- The body part ----------

  // A JSON text is keyed by the canonical text of its value, however it is written; anything else by
  // itself.
  lemma BodyText(body: Option<Str>, numbers: Numbers)
    requires Faithful(numbers)
    ensures forall v | Carries(body, v, numbers) ::
              CanonBody(body, numbers) == Canon(v) && WellFormed(v, numbers) && Parse(body.value, numbers) == Some(v)
    ensures (forall v :: !Carries(body, v, numbers)) ==>
              CanonBody(body, numbers) == RawText(body) && (body.Some? ==> Parse(body.value, numbers) == None)
  {
    hide Parse, Canon, WellFormed, IsTextOf;
    if body.Some? {
      ParseWellFormed(body.value, numbers);
      forall v ensures Carries(body, v, numbers) <==> Parse(body.value, numbers) == Some(v) {
        ParsesExactly(body.value, v, numbers);
      }
    }
  }

  // Two ways to write one value, in white space, escapes and order of members, are keyed alike.
  lemma WritingIsIrrelevant(e: Elem, f: Elem, numbers: Numbers)
    requires Faithful(numbers) && IsElem(e) && IsElem(f) && DocValue(e.doc, numbers) == DocValue(f.doc, numbers)
    ensures CanonBody(Some(ElemText(e)), numbers) == CanonBody(Some(ElemText(f)), numbers) == Canon(DocValue(e.doc, numbers))
  {
    hide CanonBody, IsElem, ElemText, DocValue, Canon;
    var v := DocValue(e.doc, numbers);
    assert IsTextOf(e, ElemText(e), v, numbers) && IsTextOf(f, ElemText(f), v, numbers);
    BodyText(Some(ElemText(e)), numbers);
    BodyText(Some(ElemText(f)), numbers);
    assert Carries(Some(ElemText(e)), v, numbers) && Carries(Some(ElemText(f)), v, numbers);
  }

  // A JSON body never shares its text with another kind: canonical text is JSON.
  lemma BodyUnambiguous(a: Option<Str>, b: Option<Str>, numbers: Numbers)
    requires Faithful(numbers)
    ensures CanonBody(a, numbers) == CanonBody(b, numbers) <==> SameBody(a, b, numbers)
  {
    hide CanonBody, Parse, Canon, WellFormed, Squash, Carries;
    BodyText(a, numbers);
    BodyText(b, numbers);
    if v :| Carries(a, v, numbers) {
      CarriedApart(a, v, b, numbers);
    } else if w :| Carries(b, w, numbers) {
      CarriedApart(b, w, a, numbers);
    }
  }

  lemma CarriedApart(a: Option<Str>, v: Json, b: Option<Str>, numbers: Numbers)
    requires Faithful(numbers) && Carries(a, v, numbers)
    ensures CanonBody(a, numbers) == CanonBody(b, numbers)
       <==> exists w :: Carries(b, w, numbers) && Squash(v) == Squash(w)
    ensures forall u | Carries(a, u, numbers) :: u == v
  {
    hide CanonBody, Parse, Canon, WellFormed, Squash, Carries;
    BodyText(a, numbers);
    BodyText(b, numbers);
    CanonParsesBack(v, numbers);
    if w :| Carries(b, w, numbers) {
      CanonInjective(v, w, numbers);
      forall u | Carries(b, u, numbers) ensures u == w {
      }
    } else {
      assert Parse([], numbers) == None by {
        EmptyIsNoText(numbers);
      }
      CarriedIsSome(a, v, numbers);
    }
  }

  lemma CarriedIsSome(a: Option<Str>, v: Json, numbers: Numbers)
    requires Carries(a, v, numbers)
    ensures a.Some?
  {
  }

  lemma EmptyIsNoText(numbers: Numbers)
    ensures Parse([], numbers) == None
  {
  }

  // ---------- Main result ----------

  // Single-line requests share key material exactly when they mean the same request.
  lemma MaterialUnambiguous(a: Request, b: Request, numbers: Numbers)
    requires Faithful(numbers)
    requires SingleLine(a) && SingleLine(b)
    ensures Material(a, numbers) == Material(b, numbers) <==> SameRequest(a, b, numbers)
  {
    hide SameBody, CanonBody, CanonQuery, SameVerb;
    BodyUnambiguous(a.body, b.body, numbers);
    UpperExactly(a.verb, b.verb);
    var qa, qb := CanonQuery(QueryOf(a)), CanonQuery(QueryOf(b));
    var ba, bb := CanonBody(a.body, numbers), CanonBody(b.body, numbers);
    if Material(a, numbers) == Material(b, numbers) {
      SplitUnique(Upper(a.verb), a.path + [NEWLINE] + (qa + [NEWLINE] + ba),
                  Upper(b.verb), b.path + [NEWLINE] + (qb + [NEWLINE] + bb), NEWLINE);
      SplitUnique(a.path, qa + [NEWLINE] + ba, b.path, qb + [NEWLINE] + bb, NEWLINE);
      QuerySingleLine(QueryOf(a));
      QuerySingleLine(QueryOf(b));
      SplitUnique(qa, ba, qb, bb, NEWLINE);
      QueryInjective(QueryOf(a), QueryOf(b), numbers);
    }
  }

  // When no number of either body overflows, sharing material means sharing the parsed value.
  lemma FiniteBodiesUnambiguous(a: Request, b: Request, numbers: Numbers)
    requires Faithful(numbers)
    requires SingleLine(a) && SingleLine(b)
    requires a.body.Some? && Parse(a.body.value, numbers).Some? && Finite(Parse(a.body.value, numbers).value)
    requires b.body.Some? && Parse(b.body.value, numbers).Some? && Finite(Parse(b.body.value, numbers).value)
    requires Material(a, numbers) == Material(b, numbers)
    ensures Parse(a.body.value, numbers) == Parse(b.body.value, numbers)
  {
    hide Parse, Material, Finite;
    MaterialUnambiguous(a, b, numbers);
    var v, w := Parse(a.body.value, numbers).value, Parse(b.body.value, numbers).value;
    SquashFinite(v);
    SquashFinite(w);
    ParsesExactly(a.body.value, v, numbers);
    ParsesExactly(b.body.value, w, numbers);
    BodyText(a.body, numbers);
    BodyText(b.body, numbers);
  }

  // An overflowing number collides with null: both are printed as null.
  lemma OverflowCollidesWithNull(r: Request, numeral: Str, numbers: Numbers)
    requires IsNumeral(numeral) && numbers(numeral).Infinite?
    ensures var a, b := r.(body := Some(numeral)), r.(body := Some(NULL_TEXT));
            Material(a, numbers) == Material(b, numbers)
            && Parse(numeral, numbers) != Parse(NULL_TEXT, numbers)
  {
    hide Parse, NumeralLength, CanonQuery;
    NumeralParses(numeral, numbers);
    NullParses(numbers);
  }

  lemma NumeralParses(numeral: Str, numbers: Numbers)
    requires IsNumeral(numeral)
    ensures Parse(numeral, numbers) == Some(numbers(numeral))
  {
    NumeralExactly(numeral);
    var n :| IsNumeralTree(n) && NumeralText(n) == numeral;
    NumberReads(n, [], numbers);
    assert numeral + [] == numeral;
  }

  lemma NullParses(numbers: Numbers)
    ensures Parse(NULL_TEXT, numbers) == Some(Null)
  {
    CanonParsesBack(Null, numbers);
  }

  // A line break in the path moves the border between method and path.
  lemma LineBreakCollides(a: Str, b: Str, c: Str, query: Option<map<Str, Str>>, body: Option<Str>, numbers: Numbers)
    requires Upper(b) == b
    ensures Material(Request(a, b + [NEWLINE] + c, query, body), numbers)
         == Material(Request(a + [NEWLINE] + b, c, query, body), numbers)
  {
    hide CanonQuery, CanonBody;
    assert Upper([NEWLINE] + b) == [NEWLINE] + b by {
      assert ([NEWLINE] + b)[1..] == b;
    }
    Regroup(a, [NEWLINE], b);
    UpperAppend(a, [NEWLINE] + b);
    ShiftBorder(Upper(a), b, c, CanonQuery(query.GetOr(map[])) + [NEWLINE] + CanonBody(body, numbers));
  }

  lemma ShiftBorder(u: Str, b: Str, c: Str, tail: Str)
    ensures u + [NEWLINE] + ((b + [NEWLINE] + c) + [NEWLINE] + tail)
         == (u + ([NEWLINE] + b)) + [NEWLINE] + (c + [NEWLINE] + tail)
  {
  }

  lemma UpperAppend(a: Str, b: Str)
    ensures Upper(a + b) == Upper(a) + Upper(b)
  {
  }

  // ---------- Versioned keys ----------

  type Id = string
  type Digest = Str -> string

  ghost predicate Injective(digest: Digest) {
    forall x, y | digest(x) == digest(y) :: x == y
  }

  // A resource id is hexadecimal text.
  predicate IsId(id: Id) { ':' !in id }

  function Namespace(id: Id, version: nat): string {
    "resource:" + (id + [':'] + (("v" + Decimal(version)) + [':']))
  }

  function Key(id: Id, version: nat, r: Request, numbers: Numbers, digest: Digest): string {
    Namespace(id, version) + digest(Material(r, numbers))
  }

  // A namespace is the prefix of its own keys only: version 1 never covers version 10.
  lemma NamespaceExact(id: Id, version: nat, id': Id, version': nat, tail: string)
    requires IsId(id) && IsId(id')
    ensures Namespace(id, version) <= Namespace(id', version') + tail <==> id == id' && version == version'
  {
    var key := Namespace(id', version') + tail;
    if Namespace(id, version) <= key {
      var rest := key[|Namespace(id, version)|..];
      var v, v' := "v" + Decimal(version), "v" + Decimal(version');
      var x, y := id + [':'] + (v + [':'] + rest), id' + [':'] + (v' + [':'] + tail);
      assert key == Namespace(id, version) + rest;
      assert "resource:" + x == key == "resource:" + y;
      assert x == key[9..] == y;
      SplitUnique(id, v + [':'] + rest, id', v' + [':'] + tail, ':');
      SplitUnique(v, rest, v', tail, ':');
      assert Decimal(version) == v[1..] && Decimal(version') == v'[1..];
      DecimalInjective(version, version');
    }
  }

  lemma NamespaceSplit(id: Id, version: nat, tail: string, id': Id, version': nat, tail': string)
    requires IsId(id) && IsId(id')
    requires Namespace(id, version) + tail == Namespace(id', version') + tail'
    ensures id == id' && version == version' && tail == tail'
  {
    NamespaceExact(id, version, id', version', tail');
    var n := |Namespace(id, version)|;
    assert tail == (Namespace(id, version) + tail)[n..];
    assert tail' == (Namespace(id, version) + tail')[n..];
  }

  // Two calls use one cache entry exactly when resource, version and request agree.
  lemma KeyUnambiguous(id: Id, version: nat, r: Request, id': Id, version': nat, r': Request,
                       numbers: Numbers, digest: Digest)
    requires Faithful(numbers) && Injective(digest)
    requires IsId(id) && IsId(id') && SingleLine(r) && SingleLine(r')
    ensures Key(id, version, r, numbers, digest) == Key(id', version', r', numbers, digest)
       <==> id == id' && version == version' && SameRequest(r, r', numbers)
  {
    MaterialUnambiguous(r, r', numbers);
    if Key(id, version, r, numbers, digest) == Key(id', version', r', numbers, digest) {
      NamespaceSplit(id, version, digest(Material(r, numbers)), id', version', digest(Material(r', numbers)));
    }
  }
}
