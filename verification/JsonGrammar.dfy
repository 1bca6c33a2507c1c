// The JSON grammar (RFC 8259) over UTF-16 code units: texts as trees, what each tree is written as and
// which value it stands for.
module JsonGrammar {
  import opened Prelude
  import opened JsonText

  // ---------- Tokens ----------

  // Insignificant white space (section 2): space, tab, line feed, carriage return.
  predicate IsGap(s: Str) { forall k | 0 <= k < |s| :: s[k] == 0x20 || s[k] == 0x09 || s[k] == 0x0A || s[k] == 0x0D }

  // One character of a string (section 7): itself, or escaped by a letter or by four hex digits.
  datatype Piece = Plain(u: Unit) | Short(letter: Unit) | Code(h3: Unit, h2: Unit, h1: Unit, h0: Unit)

  // What each two-character escape stands for.
  const ESCAPES: map<Unit, Unit> :=
    map[QUOTE := QUOTE, BACKSLASH := BACKSLASH, 0x2F := 0x2F, 0x62 := 0x08, 0x66 := 0x0C, 0x6E := 0x0A, 0x72 := 0x0D, 0x74 := 0x09]

  const HEX: string := "0123456789abcdef"

  // The digit is this hex digit, in either letter case.
  predicate IsHexDigit(u: Unit, digit: int) {
    0 <= digit < 16 && (u as int == HEX[digit] as int || (10 <= digit && u as int + 32 == HEX[digit] as int))
  }

  ghost predicate IsPiece(p: Piece) {
    match p
    case Plain(u) => 0x20 <= u && u != QUOTE && u != BACKSLASH
    case Short(letter) => letter in ESCAPES
    case Code(h3, h2, h1, h0) =>
      && (exists d :: IsHexDigit(h3, d)) && (exists d :: IsHexDigit(h2, d))
      && (exists d :: IsHexDigit(h1, d)) && (exists d :: IsHexDigit(h0, d))
  }

  function PieceText(p: Piece): Str {
    match p
    case Plain(u) => [u]
    case Short(letter) => [BACKSLASH, letter]
    case Code(h3, h2, h1, h0) => [BACKSLASH, 0x75, h3, h2, h1, h0]
  }

  // The piece stands for this code unit.
  ghost predicate StandsFor(p: Piece, u: Unit) {
    match p
    case Plain(v) => u == v
    case Short(letter) => letter in ESCAPES && u == ESCAPES[letter]
    case Code(h3, h2, h1, h0) =>
      exists a, b, c, d ::
        IsHexDigit(h3, a) && IsHexDigit(h2, b) && IsHexDigit(h1, c) && IsHexDigit(h0, d)
        && u as int == ((a * 16 + b) * 16 + c) * 16 + d
  }

  function PiecesText(ps: seq<Piece>): Str {
    if ps == [] then [] else PieceText(ps[0]) + PiecesText(ps[1..])
  }

  function StringText(ps: seq<Piece>): Str { [QUOTE] + PiecesText(ps) + [QUOTE] }

  ghost predicate Spells(ps: seq<Piece>, s: Str) {
    |ps| == |s| && forall k | 0 <= k < |ps| :: IsPiece(ps[k]) && StandsFor(ps[k], s[k])
  }

  // A numeral (section 6).
  datatype Exponent = Exponent(mark: Unit, sign: Str, digits: Str)

  datatype Numeral = Numeral(minus: bool, whole: Str, frac: Option<Str>, exp: Option<Exponent>)

  predicate AreDigits(s: Str) { s != [] && forall k | 0 <= k < |s| :: 0x30 <= s[k] <= 0x39 }

  predicate IsNumeralTree(n: Numeral) {
    && AreDigits(n.whole) && (n.whole[0] == 0x30 ==> |n.whole| == 1)
    && (n.frac.Some? ==> AreDigits(n.frac.value))
    && (n.exp.Some? ==>
          && (n.exp.value.mark == 0x65 || n.exp.value.mark == 0x45)
          && (n.exp.value.sign == [] || n.exp.value.sign == [0x2B] || n.exp.value.sign == [0x2D])
          && AreDigits(n.exp.value.digits))
  }

  function WholeText(n: Numeral): Str { (if n.minus then [0x2D] else []) + n.whole }

  function FracText(n: Numeral): Str { if n.frac.Some? then [0x2E] + n.frac.value else [] }

  function ExpText(n: Numeral): Str {
    if n.exp.Some? then [n.exp.value.mark] + n.exp.value.sign + n.exp.value.digits else []
  }

  function NumeralText(n: Numeral): Str { WholeText(n) + FracText(n) + ExpText(n) }

  // ---------- Values ----------

  // A value as written; the gap of an array or an object stands between its brackets when it is empty.
  datatype Doc =
    | Word(v: Json)
    | Number(n: Numeral)
    | String(pieces: seq<Piece>, s: Str)
    | Array(gap: Str, elems: seq<Elem>)
    | Object(gap: Str, members: seq<Member>)

  // A value with the white space around it.
  datatype Elem = Elem(before: Str, doc: Doc, after: Str)

  datatype Member = Member(before: Str, key: seq<Piece>, name: Str, between: Str, elem: Elem)

  ghost predicate IsDoc(d: Doc) {
    match d
    case Word(v) => v.Null? || v.Bool?
    case Number(n) => IsNumeralTree(n)
    case String(ps, s) => Spells(ps, s)
    case Array(gap, elems) => IsGap(gap) && forall k | 0 <= k < |elems| :: IsElem(elems[k])
    case Object(gap, members) => IsGap(gap) && forall k | 0 <= k < |members| :: IsMember(members[k])
  }

  ghost predicate IsElem(e: Elem) { IsGap(e.before) && IsDoc(e.doc) && IsGap(e.after) }

  ghost predicate IsMember(m: Member) {
    IsGap(m.before) && Spells(m.key, m.name) && IsGap(m.between) && IsElem(m.elem)
  }

  function DocText(d: Doc): Str {
    match d
    case Word(v) => if v == Bool(true) then TRUE_TEXT else if v == Bool(false) then FALSE_TEXT else NULL_TEXT
    case Number(n) => NumeralText(n)
    case String(ps, _) => StringText(ps)
    case Array(gap, elems) => [OPEN_BRACKET] + (if elems == [] then gap else ElemsText(elems)) + [CLOSE_BRACKET]
    case Object(gap, members) => [OPEN_BRACE] + (if members == [] then gap else MembersText(members)) + [CLOSE_BRACE]
  }

  function ElemText(e: Elem): Str { e.before + DocText(e.doc) + e.after }

  function ElemsText(elems: seq<Elem>): Str {
    if elems == [] then []
    else if |elems| == 1 then ElemText(elems[0])
    else ElemText(elems[0]) + [COMMA] + ElemsText(elems[1..])
  }

  function MemberText(m: Member): Str { m.before + StringText(m.key) + m.between + [COLON] + ElemText(m.elem) }

  function MembersText(members: seq<Member>): Str {
    if members == [] then []
    else if |members| == 1 then MemberText(members[0])
    else MemberText(members[0]) + [COMMA] + MembersText(members[1..])
  }

  // What a tree stands for: numerals as they are read, the last member of each name.
  function DocValue(d: Doc, numbers: Numbers): Json {
    match d
    case Word(v) => v
    case Number(n) => numbers(NumeralText(n))
    case String(_, s) => Text(s)
    case Array(_, elems) => Arr(ElemsValue(elems, numbers))
    case Object(_, members) => Obj(MembersValue(members, numbers))
  }

  function ElemsValue(elems: seq<Elem>, numbers: Numbers): seq<Json> {
    if elems == [] then [] else [DocValue(elems[0].doc, numbers)] + ElemsValue(elems[1..], numbers)
  }

  function MembersValue(members: seq<Member>, numbers: Numbers): map<Str, Json> {
    if members == [] then map[]
    else
      var n := |members| - 1;
      MembersValue(members[..n], numbers)[members[n].name := DocValue(members[n].elem.doc, numbers)]
  }
}
